/** What a hunt never takes back: convictions, clearances, and the fact of having
    started. */
module HuntTrail {
  import opened CoreSets
  import opened Json
  import opened HuntModel
  import opened HuntInvariant
  import opened HuntRuns

  /** The cores that are convicted or still under suspicion; the others are cleared. */
  ghost function Territory(s: Hunt): set<int> {
    ToSet(s.found) + Cores(s.pending) + ToSet(s.parent)
  }

  /** From `s` to `t`: convictions stay, clearances stay, started stays. */
  ghost predicate Advances(s: Hunt, t: Hunt) {
    && ToSet(s.found) <= ToSet(t.found)
    && Territory(t) <= Territory(s)
    && (Started(s) ==> Started(t))
  }

  lemma ActiveMaskInside(s: Hunt)
    requires Inv(s)
    ensures ToSet(s.inFlight) <= Territory(s) && ToSet(s.inFlight) !! ToSet(s.found)
  {
    if s.stage == Probe && s.parent != [] {
      SplitFacts(s.parent);
    } else if s.stage == Lead {
      LeadFacts(s.candidates, s.loaded);
      SingleGroup(s.candidates);
    }
  }

  lemma NextAdvances(s: Hunt)
    requires Inv(s)
    ensures Advances(s, NextLiveSet(s).0) && Started(NextLiveSet(s).0)
    ensures Territory(NextLiveSet(s).0) == Territory(s)
  {
    if s.stage == Probe && s.inFlight == [] && s.queue == [] {
      IdleWhenEmpty(s);
      AbsorbKeeps(s);
      var t := AbsorbSingles(s);
      if t.pending != [] {
        PopFront(t.pending, ToSet(t.candidates));
        SplitFacts(t.pending[0]);
      }
    }
  }

  lemma RecordAdvances(s: Hunt, reproduced: bool, m: int)
    requires Inv(s) && s.inFlight != []
    ensures Advances(s, Record(s, reproduced, m)) && Started(Record(s, reproduced, m))
  {
    if s.stage == Lead {
      LeadFacts(s.candidates, s.loaded);
      SingleGroup(s.candidates);
    } else if AskingWhole(s) {
      SortedUnion(s.found, s.parent);
      WholeStarted(s, reproduced, m);
    } else {
      RecordHalfAdvances(s, reproduced, m);
    }
  }

  lemma WholeStarted(s: Hunt, reproduced: bool, m: int)
    requires Inv(s) && s.inFlight != [] && s.stage == Probe && AskingWhole(s)
    ensures Started(Record(s, reproduced, m))
  {
    if reproduced {
      ToSetEmpty(s.parent);
      SortedUnion(s.found, s.parent);
      ToSetEmpty(Sorted(s.found + s.parent));
    }
  }

  lemma RecordHalfAdvances(s: Hunt, reproduced: bool, m: int)
    requires Inv(s) && s.inFlight != [] && s.stage == Probe && Halving(s)
    ensures Advances(s, Record(s, reproduced, m)) && Started(Record(s, reproduced, m))
  {
    SplitFacts(s.parent);
    var (left, right) := Split(s.parent);
    if SecondHalf(s) {
      var t := s.(launchesDone := 0, inFlight := []);
      var u := if reproduced then t.(guilty := t.guilty + [right], noReproduce := 0) else t;
      CloseAdvances(u, m);
    }
  }

  lemma CloseAdvances(s: Hunt, m: int)
    requires Answered(s)
    ensures ToSet(s.found) == ToSet(CloseSplit(s, m).found)
    ensures Territory(CloseSplit(s, m)) <= Territory(s) && Started(CloseSplit(s, m))
  {
    SplitFacts(s.parent);
    if s.guilty != [] {
      GuiltyGroups(s.parent, s.guilty, ToSet(s.candidates));
      CoresConcat(s.guilty, s.pending);
      HalfIsNotEverything(s);
    } else {
      SingleGroup(s.parent);
      CoresConcat([s.parent], s.pending);
    }
  }

  /** A guilty half at the front of the worklist is not the whole candidate set. */
  lemma HalfIsNotEverything(s: Hunt)
    requires Answered(s) && s.guilty != []
    ensures (s.guilty + s.pending)[0] != s.candidates
  {
    SplitFacts(s.parent);
    StrictSubsetLength(s.parent, s.candidates);
  }

  lemma StepAdvances(s: Hunt, e: Event, check: Json -> bool)
    requires Good(s, check) && Enabled(s, e, check)
    ensures Advances(s, Step(s, e, check))
  {
    match e
    case Ask => NextAdvances(s);
    case Answer(reproduced, limit) => RecordAdvances(s, reproduced, limit);
    case Restart => RestartChangesNothing(s, check);
    case _ =>
  }

  /** Along every run convictions only grow, suspicion only shrinks, and a started
      hunt stays started. */
  lemma {:induction false} RunAdvances(s: Hunt, es: seq<Event>, check: Json -> bool)
    requires Good(s, check) && Legal(s, es, check)
    ensures Advances(s, Run(s, es, check))
    decreases |es|
  {
    if es != [] {
      StepKeepsGood(s, es[0], check);
      StepAdvances(s, es[0], check);
      RunAdvances(Step(s, es[0], check), es[1..], check);
    }
  }

  /** No later probe leaves live a core that is already convicted or cleared. */
  lemma {:induction false} MasksStayInside(s: Hunt, es: seq<Event>, check: Json -> bool, mask: seq<int>)
    requires Good(s, check) && Legal(s, es, check) && mask in Masks(s, es, check)
    ensures ToSet(mask) <= Territory(s) - ToSet(s.found)
    decreases |es|
  {
    var t := Step(s, es[0], check);
    StepKeepsGood(s, es[0], check);
    StepAdvances(s, es[0], check);
    ActiveMaskInside(s);
    if mask in Masks(t, es[1..], check) {
      MasksStayInside(t, es[1..], check, mask);
    }
  }

  lemma {:induction false} StartsWhenAsked(s: Hunt, es: seq<Event>, check: Json -> bool)
    requires Good(s, check) && Legal(s, es, check) && !Started(s) && s.inFlight == []
    ensures Started(Run(s, es, check)) <==> Ask in es
    decreases |es|
  {
    if es != [] {
      var t := Step(s, es[0], check);
      StepKeepsGood(s, es[0], check);
      if es[0].Ask? {
        NextAdvances(s);
        RunAdvances(t, es[1..], check);
      } else {
        if es[0].Restart? {
          RestartChangesNothing(s, check);
        }
        assert !Started(t) && t.inFlight == [];
        StartsWhenAsked(t, es[1..], check);
      }
    }
  }

  /** Until a mask is asked for a hunt is only crash context; from then on it has started,
      whatever else happens before or after. */
  lemma StartedIffAsked(candidates: seq<int>, loaded: seq<int>, observed: real, es: seq<Event>, check: Json -> bool)
    requires Begin(candidates, loaded, observed).Some?
    requires Legal(Begin(candidates, loaded, observed).value, es, check)
    ensures Started(Run(Begin(candidates, loaded, observed).value, es, check)) <==> Ask in es
  {
    BeginIsGood(candidates, loaded, observed, check);
    StartsWhenAsked(Begin(candidates, loaded, observed).value, es, check);
  }

  /** A hunt is exhausted by one thing only: a clean probe of a whole set both of
      whose halves ran out of retries, with nobody convicted. */
  lemma ExhaustedOnlyByCleanWholeSet(s: Hunt, reproduced: bool, m: int)
    requires Inv(s) && !Terminal(s)
    ensures NextLiveSet(s).0.stage != Exhausted
    ensures s.inFlight != [] ==>
      (Record(s, reproduced, m).stage == Exhausted <==>
       s.stage == Probe && s.inFlight == s.parent && !reproduced && s.found == [])
  {
    if s.stage == Probe {
      if s.parent != [] {
        SplitFacts(s.parent);
      } else {
        AbsorbKeeps(s);
      }
    }
  }
}
