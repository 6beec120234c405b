/** Runs of a hunt: any interleaving of the two operations with what the caller does
    to its own fields and with restarts of the process. */
module HuntRuns {
  import opened Wrappers
  import opened CoreSets
  import opened Json
  import opened HuntModel
  import opened HuntInvariant
  import opened HuntValidate
  import opened HuntBound
  import opened HuntJson

  /** Open a hunt; None is the refusal of unusable arguments. */
  function Begin(candidates: seq<int>, loaded: seq<int>, observed: real): Option<Hunt> {
    var universe := Sorted(candidates);
    var under := Sorted(loaded);
    if CoreSet(universe, false) && CoreSet(under, false) && observed >= 0.0
    then Some(Fresh(universe, under, observed))
    else None
  }

  datatype Event =
    | Ask
    | Answer(reproduced: bool, limit: int)
    | Arm
    | Disarm
    | LaunchDone
    | Attach(vector: map<int, int>, workload: Json)
    | Restart

  /** What the process holds after it is restarted from its own saved state. */
  function Reload(s: Hunt, check: Json -> bool): Hunt {
    if ToJson(s, check).Some? && FromJson(Document(ToJson(s, check).value), check).State?
    then FromJson(Document(ToJson(s, check).value), check).hunt
    else s
  }

  function Step(s: Hunt, e: Event, check: Json -> bool): Hunt {
    match e
    case Ask => NextLiveSet(s).0
    case Answer(reproduced, limit) => Record(s, reproduced, limit)
    case Arm => s.(armed := true)
    case Disarm => s.(armed := false)
    case LaunchDone => s.(launchesDone := s.launchesDone + 1)
    case Attach(vector, workload) => s.(vector := vector, workload := workload)
    case Restart => Reload(s, check)
  }

  /** An answer needs an unanswered, disarmed probe; the caller's own steps keep its
      fields within bounds. */
  ghost predicate Enabled(s: Hunt, e: Event, check: Json -> bool) {
    match e
    case Ask => true
    case Answer(_, limit) => s.inFlight != [] && !s.armed && limit <= MAX_INTEGER
    case Arm => s.inFlight != [] && s.vector != map[]
    case Disarm => true
    case LaunchDone => s.inFlight != [] && s.launchesDone < MAX_INTEGER
    case Attach(vector, workload) => !s.armed && BoundedVector(vector) && (workload != Null ==> check(workload))
    case Restart => true
  }

  function Run(s: Hunt, es: seq<Event>, check: Json -> bool): Hunt
    decreases |es|
  {
    if es == [] then s else Run(Step(s, es[0], check), es[1..], check)
  }

  ghost predicate Legal(s: Hunt, es: seq<Event>, check: Json -> bool)
    decreases |es|
  {
    es != [] ==> Enabled(s, es[0], check) && Legal(Step(s, es[0], check), es[1..], check)
  }

  ghost predicate Good(s: Hunt, check: Json -> bool) {
    Inv(s) && CallerFields(s, check) && RetriesWithin(s, MAX_INTEGER)
  }

  // ----- every reachable state is valid -----

  lemma {:induction false} GroupsOne(g: seq<int>, universe: set<int>)
    requires g != [] && Listing(g, universe)
    ensures Groups([g], universe) && Cores([g]) == ToSet(g)
  {
    SingleGroup(g);
  }

  /** Begin accepts exactly the duplicate-free, bounded, non-empty lists. */
  lemma BeginAccepts(candidates: seq<int>, loaded: seq<int>, observed: real)
    ensures Begin(candidates, loaded, observed).Some? <==>
      && candidates != [] && NoDuplicates(candidates) && (forall c :: c in candidates ==> Counter(c))
      && loaded != [] && NoDuplicates(loaded) && (forall c :: c in loaded ==> Counter(c))
      && observed >= 0.0
    ensures Begin(candidates, loaded, observed).Some? ==>
      var s := Begin(candidates, loaded, observed).value;
      ToSet(s.candidates) == ToSet(candidates) && Strict(s.candidates)
  {
    SortedAccepts(candidates);
    SortedAccepts(loaded);
    SortedDistinctIsStrict(Sorted(candidates));
    SortedIsAscendingPermutation(candidates);
  }

  /** What a hunt opens with: the two lists and the time, the lead first where there is
      one, and nothing found, asked or recorded. */
  lemma BeginKeeps(candidates: seq<int>, loaded: seq<int>, observed: real)
    requires Begin(candidates, loaded, observed).Some?
    ensures var s := Begin(candidates, loaded, observed).value;
      && ToSet(s.candidates) == ToSet(candidates) && Strict(s.candidates)
      && ToSet(s.loaded) == ToSet(loaded) && Strict(s.loaded)
      && s.observed == observed
      && s.stage == (if |s.candidates| > 1 && exists i :: OnlyAt(s.loaded, s.candidates, i) then Lead else Probe)
      && s.pending == [s.candidates] && s.queue == [] && s.inFlight == [] && s.parent == [] && s.guilty == []
      && s.level == 0 && s.found == [] && s.noReproduce == 0 && s.launchesDone == 0
      && !s.armed && s.vector == map[] && s.workload == Null
  {
    SortedDistinctIsStrict(Sorted(candidates));
    SortedDistinctIsStrict(Sorted(loaded));
    SortedIsAscendingPermutation(candidates);
    SortedIsAscendingPermutation(loaded);
    LeadIff(Sorted(candidates), Sorted(loaded));
  }

  lemma SortedAccepts(s: seq<int>)
    ensures CoreSet(Sorted(s), false) <==> s != [] && NoDuplicates(s) && forall c :: c in s ==> Counter(c)
  {
    SortedIsAscendingPermutation(s);
    SortedDistinctIsStrict(Sorted(s));
    assert forall c :: c in s <==> c in ToSet(s);
    assert forall c :: c in Sorted(s) <==> c in ToSet(Sorted(s));
    if NoDuplicates(s) {
      SortedIsStrict(s);
    }
    if Strict(Sorted(s)) {
      StrictCardinality(Sorted(s));
      FullCardinalityHasNoDuplicates(s);
    }
  }

  lemma NoDuplicatesFromRest(s: seq<int>)
    requires s != []
    ensures NoDuplicates(s) <==> s[0] !in s[1..] && NoDuplicates(s[1..])
  {
    assert forall i :: 1 <= i < |s| ==> s[i] == s[1..][i - 1];
    if s[0] !in s[1..] && NoDuplicates(s[1..]) {
      forall i, j | 0 <= i < j < |s|
        ensures s[i] != s[j]
      {
        assert s[j] == s[1..][j - 1];
        assert i > 0 ==> s[i] == s[1..][i - 1];
      }
    }
    if NoDuplicates(s) {
      forall i, j | 0 <= i < j < |s[1..]|
        ensures s[1..][i] != s[1..][j]
      {
        assert s[i + 1] != s[j + 1];
      }
    }
  }

  lemma {:induction false} FullCardinalityHasNoDuplicates(s: seq<int>)
    ensures |ToSet(s)| <= |s|
    ensures |ToSet(s)| == |s| ==> NoDuplicates(s)
  {
    if s != [] {
      FullCardinalityHasNoDuplicates(s[1..]);
      HeadAndRest(s);
      assert s[0] in s[1..] <==> s[0] in ToSet(s[1..]);
      assert s[0] in s[1..] ==> ToSet(s) == ToSet(s[1..]);
      NoDuplicatesFromRest(s);
    }
  }

  lemma BeginIsGood(candidates: seq<int>, loaded: seq<int>, observed: real, check: Json -> bool)
    requires Begin(candidates, loaded, observed).Some?
    ensures var s := Begin(candidates, loaded, observed).value;
      Good(s, check) && RetriesWithin(s, 1) && !Started(s)
  {
    var s := Begin(candidates, loaded, observed).value;
    SortedDistinctIsStrict(s.candidates);
    GroupsOne(s.candidates, ToSet(s.candidates));
  }

  lemma RestartChangesNothing(s: Hunt, check: Json -> bool)
    requires Inv(s) && CallerFields(s, check)
    ensures Reload(s, check) == s
  {
    InvIsValid(s, check);
    RoundTrip(s, check);
  }

  lemma RecordLeavesCallerFields(s: Hunt, reproduced: bool, m: int)
    ensures var t := Record(s, reproduced, m);
      && t.loaded == s.loaded && t.launchesDone == 0 && t.observed == s.observed
      && t.vector == s.vector && t.armed == s.armed && t.workload == s.workload
  {
  }

  lemma RecordCallerFields(s: Hunt, reproduced: bool, m: int, check: Json -> bool)
    requires Good(s, check) && s.inFlight != [] && !s.armed && m <= MAX_INTEGER
    ensures CallerFields(Record(s, reproduced, m), check)
  {
    RecordLeavesCallerFields(s, reproduced, m);
    RecordSpendsOne(s, reproduced, m, MAX_INTEGER);
  }

  lemma NextCallerFields(s: Hunt, check: Json -> bool)
    requires Good(s, check)
    ensures CallerFields(NextLiveSet(s).0, check)
  {
    if s.stage == Probe && s.inFlight == [] && s.queue == [] {
      IdleWhenEmpty(s);
      AbsorbKeeps(s);
    }
  }

  lemma StepKeepsGood(s: Hunt, e: Event, check: Json -> bool)
    requires Good(s, check) && Enabled(s, e, check)
    ensures Good(Step(s, e, check), check)
  {
    match e
    case Ask =>
      NextKeepsInv(s);
      NextKeepsPotential(s, MAX_INTEGER);
      NextCallerFields(s, check);
    case Answer(reproduced, limit) =>
      RecordKeepsInv(s, reproduced, limit);
      RecordSpendsOne(s, reproduced, limit, MAX_INTEGER);
      RecordCallerFields(s, reproduced, limit, check);
    case Restart =>
      RestartChangesNothing(s, check);
    case _ =>
  }

  lemma {:induction false} RunKeepsGood(s: Hunt, es: seq<Event>, check: Json -> bool)
    requires Good(s, check) && Legal(s, es, check)
    ensures Good(Run(s, es, check), check)
    decreases |es|
  {
    if es != [] {
      StepKeepsGood(s, es[0], check);
      RunKeepsGood(Step(s, es[0], check), es[1..], check);
    }
  }

  /** Every state a run reaches can be persisted, and comes back unchanged. */
  lemma ReachableStatesPersist(candidates: seq<int>, loaded: seq<int>, observed: real,
                               es: seq<Event>, check: Json -> bool)
    requires Begin(candidates, loaded, observed).Some?
    requires Legal(Begin(candidates, loaded, observed).value, es, check)
    ensures var s := Run(Begin(candidates, loaded, observed).value, es, check);
      && Valid(s, check)
      && ToJson(s, check).Some?
      && FromJson(Document(ToJson(s, check).value), check) == State(s)
  {
    var b := Begin(candidates, loaded, observed).value;
    BeginIsGood(candidates, loaded, observed, check);
    RunKeepsGood(b, es, check);
    var s := Run(b, es, check);
    InvIsValid(s, check);
    RoundTrip(s, check);
  }

  // ----- every hunt ends -----

  function Answers(es: seq<Event>): nat {
    if es == [] then 0 else (if es[0].Answer? then 1 else 0) + Answers(es[1..])
  }

  ghost predicate LimitsWithin(es: seq<Event>, cap: int) {
    forall e :: e in es && e.Answer? ==> e.limit <= cap
  }

  lemma CallerStepKeepsSearch(s: Hunt, e: Event, cap: nat, check: Json -> bool)
    requires Good(s, check) && Enabled(s, e, check) && RetriesWithin(s, cap)
    requires e != Ask && !e.Answer?
    ensures var t := Step(s, e, check);
      RetriesWithin(t, cap) && Potential(t, cap) == Potential(s, cap)
  {
    if e.Restart? {
      RestartChangesNothing(s, check);
    } else {
      assert AskingWhole(s) <==> AskingWhole(Step(s, e, check));
    }
  }

  lemma {:induction false} AnswersWithinPotential(s: Hunt, es: seq<Event>, cap: nat, check: Json -> bool)
    requires Good(s, check) && Legal(s, es, check) && RetriesWithin(s, cap)
    requires 1 <= cap <= MAX_INTEGER && LimitsWithin(es, cap)
    ensures Answers(es) <= Potential(s, cap)
    decreases |es|
  {
    PotentialNonNegative(s, cap);
    if es != [] {
      var t := Step(s, es[0], check);
      StepKeepsGood(s, es[0], check);
      assert es[0] in es;
      match es[0] {
        case Ask => NextKeepsPotential(s, cap);
        case Answer(reproduced, limit) => RecordSpendsOne(s, reproduced, limit, cap);
        case _ => CallerStepKeepsSearch(s, es[0], cap, check);
      }
      assert forall e :: e in es[1..] ==> e in es;
      AnswersWithinPotential(t, es[1..], cap, check);
    }
  }

  /** No run over `n` candidates, whatever the answers and however the retry limit
      moves below `cap`, has more than `1 + (n - 1)(2 cap + 1)` answers. */
  lemma EveryHuntEnds(candidates: seq<int>, loaded: seq<int>, observed: real,
                      es: seq<Event>, cap: nat, check: Json -> bool)
    requires Begin(candidates, loaded, observed).Some?
    requires Legal(Begin(candidates, loaded, observed).value, es, check)
    requires 1 <= cap <= MAX_INTEGER && LimitsWithin(es, cap)
    ensures Answers(es) <= 1 + (|candidates| - 1) * (2 * cap + 1)
  {
    var b := Begin(candidates, loaded, observed).value;
    BeginIsGood(candidates, loaded, observed, check);
    AnswersWithinPotential(b, es, cap, check);
    BeginPotential(candidates, loaded, observed, cap);
  }

  lemma BeginPotential(candidates: seq<int>, loaded: seq<int>, observed: real, cap: nat)
    requires Begin(candidates, loaded, observed).Some?
    ensures Potential(Begin(candidates, loaded, observed).value, cap) <= 1 + (|candidates| - 1) * (2 * cap + 1)
  {
    var b := Begin(candidates, loaded, observed).value;
    TotalCostOne(b.candidates, cap);
    SortedIsAscendingPermutation(candidates);
  }

  /** A hunt that is not over always has a non-empty mask to ask, so together with
      the bound every hunt that keeps being answered ends. */
  lemma HuntsNeverStall(candidates: seq<int>, loaded: seq<int>, observed: real,
                        es: seq<Event>, check: Json -> bool)
    requires Begin(candidates, loaded, observed).Some?
    requires Legal(Begin(candidates, loaded, observed).value, es, check)
    ensures var (t, live) := NextLiveSet(Run(Begin(candidates, loaded, observed).value, es, check));
      if live.None? then Terminal(t) else live.value != [] && live.value == t.inFlight
  {
    BeginIsGood(candidates, loaded, observed, check);
    RunKeepsGood(Begin(candidates, loaded, observed).value, es, check);
    NextAsksUnlessOver(Run(Begin(candidates, loaded, observed).value, es, check));
  }

  // ----- interruptions are invisible -----

  /** The search itself, without the fields the caller owns. */
  function Search(s: Hunt): Hunt {
    s.(launchesDone := 0, armed := false, vector := map[], workload := Null)
  }

  datatype Reply = Reply(reproduced: bool, limit: int)

  function Replies(es: seq<Event>): seq<Reply> {
    if es == [] then []
    else (if es[0].Answer? then [Reply(es[0].reproduced, es[0].limit)] else []) + Replies(es[1..])
  }

  /** The masks answered along a run, in order. */
  function Masks(s: Hunt, es: seq<Event>, check: Json -> bool): seq<seq<int>>
    decreases |es|
  {
    if es == [] then []
    else (if es[0].Answer? then [s.inFlight] else []) + Masks(Step(s, es[0], check), es[1..], check)
  }

  /** The uninterrupted hunt: ask, answer, ask, answer. */
  function Plain(s: Hunt, replies: seq<Reply>): Hunt
    decreases |replies|
  {
    if replies == [] then NextLiveSet(s).0
    else Plain(Record(NextLiveSet(s).0, replies[0].reproduced, replies[0].limit), replies[1..])
  }

  function PlainMasks(s: Hunt, replies: seq<Reply>): seq<seq<int>>
    decreases |replies|
  {
    if replies == [] then []
    else
      var t := NextLiveSet(s).0;
      [t.inFlight] + PlainMasks(Record(t, replies[0].reproduced, replies[0].limit), replies[1..])
  }

  lemma {:induction false} AbsorbIgnoresCaller(s: Hunt)
    ensures AbsorbSingles(Search(s)) == Search(AbsorbSingles(s))
    decreases |s.pending|
  {
    if s.pending != [] && |s.pending[0]| == 1 {
      AbsorbIgnoresCaller(s.(found := Sorted(s.found + s.pending[0]), pending := s.pending[1..]));
    }
  }

  lemma NextIgnoresCaller(s: Hunt)
    ensures NextLiveSet(Search(s)) == (Search(NextLiveSet(s).0), NextLiveSet(s).1)
  {
    AbsorbIgnoresCaller(s);
  }

  lemma CloseIgnoresCaller(s: Hunt, m: int)
    ensures CloseSplit(Search(s), m) == Search(CloseSplit(s, m))
  {
  }

  lemma RecordHalfIgnoresCaller(s: Hunt, probe: seq<int>, reproduced: bool, m: int)
    ensures RecordHalf(Search(s), probe, reproduced, m) == Search(RecordHalf(s, probe, reproduced, m))
  {
    var t := if reproduced then s.(guilty := s.guilty + [probe], noReproduce := 0) else s;
    CloseIgnoresCaller(t, m);
  }

  lemma RecordIgnoresCaller(s: Hunt, reproduced: bool, m: int)
    ensures Record(Search(s), reproduced, m) == Search(Record(s, reproduced, m))
  {
    var t := s.(launchesDone := 0, inFlight := []);
    assert RecordWholeSet(Search(t), reproduced) == Search(RecordWholeSet(t, reproduced));
    RecordHalfIgnoresCaller(t, s.inFlight, reproduced, m);
  }

  /** Asking again before the answer replays the same mask. */
  lemma AskingTwiceIsAskingOnce(s: Hunt)
    requires Inv(s)
    ensures var (t, live) := NextLiveSet(s); NextLiveSet(t) == (t, live)
  {
    NextAsksUnlessOver(s);
  }

  lemma AnswerContinues(s: Hunt, r: Reply, replies: seq<Reply>)
    requires Inv(s) && s.inFlight != []
    ensures var t := Search(Record(s, r.reproduced, r.limit));
      && PlainMasks(Search(s), [r] + replies) == [s.inFlight] + PlainMasks(t, replies)
      && Plain(Search(s), [r] + replies) == Plain(t, replies)
  {
    RecordIgnoresCaller(s, r.reproduced, r.limit);
    assert NextLiveSet(Search(s)).0 == Search(s);
    assert ([r] + replies)[1..] == replies;
  }

  /** Whatever the caller and restarts do between answers, the masks answered and the
      search reached depend on the answers alone. */
  lemma {:induction false} InterruptionsAreInvisible(s: Hunt, es: seq<Event>, check: Json -> bool)
    requires Good(s, check) && Legal(s, es, check)
    ensures Masks(s, es, check) == PlainMasks(Search(s), Replies(es))
    ensures Search(NextLiveSet(Run(s, es, check)).0) == Plain(Search(s), Replies(es))
    decreases |es|
  {
    if es == [] {
      NextIgnoresCaller(s);
    } else {
      var t := Step(s, es[0], check);
      StepKeepsGood(s, es[0], check);
      InterruptionsAreInvisible(t, es[1..], check);
      if es[0].Answer? {
        AnswerContinues(s, Reply(es[0].reproduced, es[0].limit), Replies(es[1..]));
        assert t == Record(s, es[0].reproduced, es[0].limit);
      } else {
        SameContinuation(s, es[0], Replies(es[1..]), check);
        assert Replies(es) == Replies(es[1..]);
        assert Masks(s, es, check) == Masks(t, es[1..], check);
      }
    }
  }

  lemma SameContinuation(s: Hunt, e: Event, replies: seq<Reply>, check: Json -> bool)
    requires Good(s, check) && Enabled(s, e, check) && !e.Answer?
    ensures var t := Step(s, e, check);
      && PlainMasks(Search(t), replies) == PlainMasks(Search(s), replies)
      && Plain(Search(t), replies) == Plain(Search(s), replies)
  {
    if e.Ask? {
      NextIgnoresCaller(s);
      AskingTwiceIsAskingOnce(s);
      NextIgnoresCaller(NextLiveSet(s).0);
    } else if e.Restart? {
      RestartChangesNothing(s, check);
    } else {
      assert Search(Step(s, e, check)) == Search(s);
    }
  }
}
