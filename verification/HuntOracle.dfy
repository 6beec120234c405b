/** Hunts whose answers come from one deterministic failure condition on live sets. */
module HuntOracle {
  import opened CoreSets
  import opened HuntModel
  import opened HuntInvariant
  import opened HuntBound
  import opened HuntRuns

  /** Whether the machine dies with exactly these offsets live. */
  type Oracle = set<int> -> bool

  ghost predicate Monotone(R: Oracle) {
    forall a: set<int>, b: set<int> :: a <= b && R(a) ==> R(b)
  }

  // ----- the complete hunt -----

  datatype Result = Result(final: Hunt, asked: seq<seq<int>>)

  function Retries(m: int): nat {
    if m < 1 then 1 else m
  }

  /** Ask and answer until there is nothing left to ask. */
  ghost function Drive(s: Hunt, R: Oracle, m: int): Result
    requires Inv(s) && RetriesWithin(s, Retries(m))
    decreases Potential(s, Retries(m))
  {
    var (t, live) := NextLiveSet(s);
    if live.None? then Result(t, [])
    else
      NextKeepsInv(s);
      NextKeepsPotential(s, Retries(m));
      NextAsksUnlessOver(s);
      RecordKeepsInv(t, R(ToSet(live.value)), m);
      RecordSpendsOne(t, R(ToSet(live.value)), m, Retries(m));
      PotentialNonNegative(t, Retries(m));
      var rest := Drive(Record(t, R(ToSet(live.value)), m), R, m);
      Result(rest.final, [live.value] + rest.asked)
  }

  ghost predicate Ready(s: Hunt, m: int) {
    Inv(s) && RetriesWithin(s, Retries(m))
  }

  /** One answer of the oracle, after the question has been put. */
  ghost function Answered1(s: Hunt, R: Oracle, m: int): Hunt {
    Record(s, R(ToSet(s.inFlight)), m)
  }

  lemma DriveStep(s: Hunt, R: Oracle, m: int)
    requires Ready(s, m)
    ensures var t := NextLiveSet(s).0;
      && Ready(t, m)
      && (t.inFlight == [] <==> Terminal(t))
      && (t.inFlight == [] ==> Drive(s, R, m) == Result(t, []))
      && (t.inFlight != [] ==>
            var u := Answered1(t, R, m);
            && Ready(u, m)
            && Potential(u, Retries(m)) < Potential(s, Retries(m))
            && 0 <= Potential(s, Retries(m))
            && Drive(s, R, m).final == Drive(u, R, m).final
            && Drive(s, R, m).asked == [t.inFlight] + Drive(u, R, m).asked)
  {
    var (t, live) := NextLiveSet(s);
    NextKeepsInv(s);
    NextKeepsPotential(s, Retries(m));
    NextAsksUnlessOver(s);
    PotentialNonNegative(s, Retries(m));
    if t.inFlight != [] {
      RecordKeepsInv(t, R(ToSet(t.inFlight)), m);
      RecordSpendsOne(t, R(ToSet(t.inFlight)), m, Retries(m));
      PotentialNonNegative(t, Retries(m));
    } else {
      assert live.None?;
    }
  }

  lemma BeginReady(candidates: seq<int>, loaded: seq<int>, observed: real, m: int)
    requires Begin(candidates, loaded, observed).Some?
    ensures var s := Begin(candidates, loaded, observed).value;
      Ready(s, m) && ToSet(s.candidates) == ToSet(candidates) && |s.candidates| == |candidates|
  {
    BeginIsGood(candidates, loaded, observed, j => true);
    SortedIsAscendingPermutation(candidates);
  }

  /** A hunt opened over `candidates` and answered by `R` to its end. */
  ghost function WholeHunt(candidates: seq<int>, loaded: seq<int>, observed: real, R: Oracle, m: int): Result
    requires Begin(candidates, loaded, observed).Some?
  {
    BeginReady(candidates, loaded, observed, m);
    Drive(Begin(candidates, loaded, observed).value, R, m)
  }

  // ----- what the answers have established -----

  ghost predicate CleanHalves(g: seq<int>, R: Oracle) {
    var (left, right) := Split(g);
    !R(ToSet(left)) && !R(ToSet(right))
  }

  /** A set that fails and that splitting would not make smaller. */
  ghost predicate Irreducible(g: seq<int>, R: Oracle) {
    g != [] && R(ToSet(g)) && (|g| == 1 || CleanHalves(g, R))
  }

  ghost predicate Blames(g: seq<int>, c: int, found: set<int>, R: Oracle) {
    c in g && ToSet(g) <= found && Irreducible(g, R)
  }

  /** The convicted cores are a union of irreducible failing sets. */
  ghost predicate Explained(found: set<int>, R: Oracle) {
    forall c :: c in found ==> exists g :: Blames(g, c, found, R)
  }

  ghost predicate Failing(gs: seq<seq<int>>, R: Oracle) {
    forall g :: g in gs ==> R(ToSet(g))
  }

  /** Nothing has been isolated yet: the work is still the whole candidate set. */
  ghost predicate AtRoot(s: Hunt) {
    && s.found == []
    && (|| s.stage == Lead
        || (s.parent == [] && s.pending == [s.candidates])
        || (s.parent == s.candidates && s.pending == []))
  }

  ghost predicate HalfKnown(s: Hunt, R: Oracle) {
    var left := Split(s.parent).0;
    && (s.guilty != [] ==> R(ToSet(left)))
    && (s.guilty == [] && s.inFlight != left ==> !R(ToSet(left)))
  }

  ghost predicate Known(s: Hunt, R: Oracle) {
    && |s.candidates| >= 2
    && Explained(ToSet(s.found), R)
    && (s.stage == Exhausted ==> !R(ToSet(s.candidates)))
    && (s.stage == Probe ==>
          && (!AtRoot(s) ==> Failing(s.pending, R) && (s.parent != [] ==> R(ToSet(s.parent))))
          && (Halving(s) ==> HalfKnown(s, R))
          && (s.noReproduce > 0 && s.parent != [] ==> CleanHalves(s.parent, R))
          && (s.noReproduce > 0 && s.parent == [] && s.pending != [] ==> CleanHalves(s.pending[0], R)))
  }

  lemma ExplainedUnion(a: set<int>, g: seq<int>, R: Oracle)
    requires Explained(a, R) && Irreducible(g, R)
    ensures Explained(a + ToSet(g), R)
  {
    forall c | c in a + ToSet(g)
      ensures exists h :: Blames(h, c, a + ToSet(g), R)
    {
      if c in a {
        var h :| Blames(h, c, a, R);
        assert Blames(h, c, a + ToSet(g), R);
      } else {
        assert Blames(g, c, a + ToSet(g), R);
      }
    }
  }

  lemma {:induction false} AbsorbKeepsKnown(s: Hunt, R: Oracle)
    requires Worklist(s) && Explained(ToSet(s.found), R) && Failing(s.pending, R)
    ensures var t := AbsorbSingles(s);
      Explained(ToSet(t.found), R) && Failing(t.pending, R)
    decreases |s.pending|
  {
    if s.pending != [] && |s.pending[0]| == 1 {
      PopFront(s.pending, ToSet(s.candidates));
      SortedUnion(s.found, s.pending[0]);
      ExplainedUnion(ToSet(s.found), s.pending[0], R);
      assert forall g :: g in s.pending[1..] ==> g in s.pending;
      var t := s.(found := Sorted(s.found + s.pending[0]), pending := s.pending[1..]);
      assert t.found != [] && s.pending[0] != [];
      AbsorbKeepsKnown(t, R);
    }
  }

  lemma AbsorbAtRoot(s: Hunt)
    requires Idle(s) && AtRoot(s) && s.stage == Probe && |s.candidates| >= 2
    ensures AbsorbSingles(s) == s && s.pending == [s.candidates]
  {
  }

  lemma OpenKeepsKnown(s: Hunt, R: Oracle)
    requires Worklist(s) && (s.pending != [] ==> |s.pending[0]| >= 2)
    requires |s.candidates| >= 2 && Explained(ToSet(s.found), R)
    requires s.pending == [] ==> s.found != []
    requires (s.pending == [s.candidates] && s.found == []) || Failing(s.pending, R)
    requires s.noReproduce > 0 && s.pending != [] ==> CleanHalves(s.pending[0], R)
    ensures Known(OpenGroup(s).0, R)
  {
    if s.pending != [] {
      PopFront(s.pending, ToSet(s.candidates));
      SplitFacts(s.pending[0]);
      var t := OpenGroup(s).0;
      assert forall g :: g in t.pending ==> g in s.pending;
      if s.pending == [s.candidates] && s.found == [] {
        assert AtRoot(t);
      }
    }
  }

  lemma NextKeepsKnown(s: Hunt, R: Oracle)
    requires Inv(s) && Known(s, R)
    ensures Known(NextLiveSet(s).0, R)
  {
    if s.stage == Probe && s.inFlight == [] {
      if s.queue != [] {
        QueuedKeepsKnown(s, R);
      } else {
        IdleWhenEmpty(s);
        AbsorbKeeps(s);
        if AtRoot(s) {
          AbsorbAtRoot(s);
        } else {
          AbsorbKeepsKnown(s, R);
        }
        AbsorbRetry(s);
        OpenKeepsKnown(AbsorbSingles(s), R);
      }
    }
  }

  /** A retried group is never lone, so it stays at the front. */
  lemma AbsorbRetry(s: Hunt)
    requires Idle(s)
    ensures s.noReproduce > 0 ==> AbsorbSingles(s) == s
  {
  }

  lemma QueuedKeepsKnown(s: Hunt, R: Oracle)
    requires Inv(s) && Known(s, R) && s.stage == Probe && s.inFlight == [] && s.queue != []
    ensures Known(NextLiveSet(s).0, R)
  {
    SplitFacts(s.parent);
    var t := NextLiveSet(s).0;
    var (left, right) := Split(s.parent);
    assert left != right by {
      assert left[0] in ToSet(left);
    }
    assert AtRoot(s) <==> AtRoot(t);
    assert Halving(s) <==> Halving(t);
  }

  // ----- an answer of the oracle -----

  lemma RecordKeepsKnown(s: Hunt, R: Oracle, m: int)
    requires Inv(s) && Known(s, R) && s.inFlight != []
    ensures Known(Answered1(s, R, m), R)
  {
    if s.stage == Lead {
      LeadFacts(s.candidates, s.loaded);
      if R(ToSet(s.inFlight)) {
        assert Irreducible(s.inFlight, R);
        ExplainedUnion({}, s.inFlight, R);
        assert {} + ToSet(s.inFlight) == ToSet(s.inFlight);
      }
    } else if AskingWhole(s) {
      WholeKeepsKnown(s, R, m);
    } else if FirstHalf(s) {
      FirstKeepsKnown(s, R, m);
    } else {
      SecondKeepsKnown(s, R, m);
    }
  }

  lemma WholeKeepsKnown(s: Hunt, R: Oracle, m: int)
    requires Inv(s) && Known(s, R) && s.inFlight != [] && s.stage == Probe && AskingWhole(s)
    ensures Known(Answered1(s, R, m), R)
  {
    if R(ToSet(s.parent)) {
      assert Irreducible(s.parent, R);
      ExplainedUnion(ToSet(s.found), s.parent, R);
      SortedUnion(s.found, s.parent);
    } else {
      assert AtRoot(s);
    }
  }

  lemma FirstKeepsKnown(s: Hunt, R: Oracle, m: int)
    requires Inv(s) && Known(s, R) && s.inFlight != [] && s.stage == Probe && Halving(s) && FirstHalf(s)
    ensures Known(Answered1(s, R, m), R)
  {
    SplitFacts(s.parent);
    var t := Answered1(s, R, m);
    assert AtRoot(s) <==> AtRoot(t);
    assert FirstHalf(t);
  }

  lemma SecondKeepsKnown(s: Hunt, R: Oracle, m: int)
    requires Inv(s) && Known(s, R) && s.inFlight != [] && s.stage == Probe && Halving(s) && SecondHalf(s)
    ensures Known(Answered1(s, R, m), R)
  {
    SplitFacts(s.parent);
    var (left, right) := Split(s.parent);
    assert left != right by {
      assert left[0] in ToSet(left);
    }
    var t := s.(launchesDone := 0, inFlight := []);
    var u := if R(ToSet(right)) then t.(guilty := t.guilty + [right], noReproduce := 0) else t;
    CloseKeepsKnown(u, R, m);
  }

  lemma CloseKeepsKnown(s: Hunt, R: Oracle, m: int)
    requires Answered(s) && |s.candidates| >= 2 && Explained(ToSet(s.found), R)
    requires Failing(s.guilty, R)
    requires s.guilty == [] ==> CleanHalves(s.parent, R)
    requires AtRoot(s) || (Failing(s.pending, R) && R(ToSet(s.parent)))
    ensures Known(CloseSplit(s, m), R)
  {
    SplitFacts(s.parent);
    var t := CloseSplit(s, m);
    if s.guilty != [] {
      assert s.pending == [] || Failing(s.pending, R);
      assert Failing(t.pending, R);
    } else if s.noReproduce + 1 < m {
      assert t.pending == [s.parent] + s.pending;
      if AtRoot(s) {
        assert t.pending == [s.candidates];
      }
    } else {
      assert AskingWhole(t);
    }
  }

  lemma BeginKnown(candidates: seq<int>, loaded: seq<int>, observed: real, R: Oracle)
    requires Begin(candidates, loaded, observed).Some? && |candidates| >= 2
    ensures Known(Begin(candidates, loaded, observed).value, R)
  {
    BeginReady(candidates, loaded, observed, 1);
  }

  lemma {:induction false} DriveKeepsKnown(s: Hunt, R: Oracle, m: int)
    requires Ready(s, m) && Known(s, R)
    ensures var t := Drive(s, R, m).final;
      Inv(t) && Terminal(t) && Known(t, R)
    decreases Potential(s, Retries(m))
  {
    DriveStep(s, R, m);
    NextKeepsKnown(s, R);
    var t := NextLiveSet(s).0;
    if t.inFlight != [] {
      RecordKeepsKnown(t, R, m);
      DriveKeepsKnown(Answered1(t, R, m), R, m);
    }
  }

  // ----- the verdict -----

  lemma ExplainedFails(s: Hunt, R: Oracle)
    requires Monotone(R) && Inv(s) && s.found != [] && Explained(ToSet(s.found), R)
    ensures R(ToSet(s.found)) && R(ToSet(s.candidates))
  {
    var c := s.found[0];
    assert c in ToSet(s.found);
    var g :| Blames(g, c, ToSet(s.found), R);
    assert ToSet(g) <= ToSet(s.found) <= ToSet(s.candidates);
  }
}
