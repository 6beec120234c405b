/** Which states let in by the persisted-state check survive one more step, exactly. */
module HuntAdmitted {
  import opened Bits
  import opened CoreSets
  import opened Json
  import opened HuntModel
  import opened HuntInvariant
  import opened HuntValidate

  // ----- the check in terms of sets -----

  /** All lists are strict listings of candidates, families are disjoint, and nothing
      convicted is still under suspicion. */
  ghost predicate Tidy(s: Hunt) {
    var universe := ToSet(s.candidates);
    && s.candidates != [] && Strict(s.candidates) && (forall c :: c in s.candidates ==> Counter(c))
    && Groups(s.pending, universe) && Groups(s.queue, universe) && Groups(s.guilty, universe)
    && Listing(s.inFlight, universe) && Listing(s.parent, universe) && Listing(s.found, universe)
    && ToSet(s.found) !! Cores(s.pending) + Active(s)
  }

  /** The cores of the split at hand. */
  ghost function Active(s: Hunt): set<int> {
    Cores(s.queue) + Cores(s.guilty) + ToSet(s.inFlight) + ToSet(s.parent)
  }

  ghost predicate Scalars(s: Hunt, check: Json -> bool) {
    && CoreSet(s.loaded, false)
    && Counter(s.level) && s.level <= MaxDepth(|s.candidates|)
    && Counter(s.noReproduce) && Counter(s.launchesDone) && (s.launchesDone != 0 ==> s.inFlight != [])
    && s.observed >= 0.0 && BoundedVector(s.vector)
    && (s.armed ==> s.vector != map[] && s.inFlight != [])
    && (s.workload != Null ==> check(s.workload))
  }

  lemma CoreSetIff(s: seq<int>, mayBeEmpty: bool)
    ensures CoreSet(s, mayBeEmpty) <==> Strict(s) && (mayBeEmpty || s != []) && forall c :: c in s ==> Counter(c)
  {
    SortedDistinctIsStrict(s);
  }

  lemma ListIff(s: seq<int>, candidates: seq<int>)
    requires forall c :: c in candidates ==> Counter(c)
    ensures CoreSet(s, true) && ToSet(s) <= ToSet(candidates) <==> Listing(s, ToSet(candidates))
  {
    CoreSetIff(s, true);
    if Listing(s, ToSet(candidates)) {
      ListingIsCoreSet(s, candidates);
    }
  }

  lemma GroupsIff(gs: seq<seq<int>>, candidates: seq<int>)
    requires forall c :: c in candidates ==> Counter(c)
    ensures CoreGroups(gs) && Disjoint(gs) && (forall g :: g in gs ==> ToSet(g) <= ToSet(candidates)) <==>
      Groups(gs, ToSet(candidates))
  {
    forall g | g in gs
      ensures CoreSet(g, false) && ToSet(g) <= ToSet(candidates) <==> g != [] && Listing(g, ToSet(candidates))
    {
      ListIff(g, candidates);
      CoreSetIff(g, true);
      CoreSetIff(g, false);
    }
  }

  lemma GroupedIff(s: Hunt, universe: set<int>)
    ensures (forall g :: g in s.pending + s.queue + s.guilty ==> ToSet(g) <= universe) <==>
      && (forall g :: g in s.pending ==> ToSet(g) <= universe)
      && (forall g :: g in s.queue ==> ToSet(g) <= universe)
      && (forall g :: g in s.guilty ==> ToSet(g) <= universe)
    ensures ToSet(s.inFlight + s.parent) + Cores(s.pending + s.queue + s.guilty) == Cores(s.pending) + Active(s)
  {
    CoresConcat(s.pending + s.queue, s.guilty);
    CoresConcat(s.pending, s.queue);
    ToSetConcat(s.inFlight, s.parent);
  }

  lemma ValidSetsIff(s: Hunt)
    requires CoreSet(s.candidates, false)
    requires CoreGroups(s.pending) && CoreGroups(s.queue) && CoreGroups(s.guilty)
    requires CoreSet(s.inFlight, true) && CoreSet(s.parent, true) && CoreSet(s.found, true)
    ensures ValidSets(s) <==>
            && Tidy(s)
            && s.level <= MaxDepth(|s.candidates|)
            && (s.launchesDone != 0 ==> s.inFlight != [])
  {
    CoreSetIff(s.candidates, false);
    GroupedIff(s, ToSet(s.candidates));
    GroupsIff(s.pending, s.candidates);
    GroupsIff(s.queue, s.candidates);
    GroupsIff(s.guilty, s.candidates);
    ListIff(s.inFlight, s.candidates);
    ListIff(s.parent, s.candidates);
    ListIff(s.found, s.candidates);
    ToSetConcat(s.inFlight, s.parent);
  }

  lemma TidyFields(s: Hunt)
    requires Tidy(s)
    ensures CoreSet(s.candidates, false)
    ensures CoreGroups(s.pending) && CoreGroups(s.queue) && CoreGroups(s.guilty)
    ensures CoreSet(s.inFlight, true) && CoreSet(s.parent, true) && CoreSet(s.found, true)
  {
    CoreSetIff(s.candidates, false);
    GroupsIff(s.pending, s.candidates);
    GroupsIff(s.queue, s.candidates);
    GroupsIff(s.guilty, s.candidates);
    ListIff(s.inFlight, s.candidates);
    ListIff(s.parent, s.candidates);
    ListIff(s.found, s.candidates);
  }

  /** The check, list by list, says no more than this. */
  lemma ValidIff(s: Hunt, check: Json -> bool)
    ensures Valid(s, check) <==> Tidy(s) && Scalars(s, check) && ValidStage(s)
  {
    if Valid(s, check) {
      ValidSetsIff(s);
    }
    if Tidy(s) && Scalars(s, check) {
      TidyFields(s);
      ValidSetsIff(s);
    }
  }

  lemma Admit(s: Hunt, check: Json -> bool)
    requires Tidy(s) && Scalars(s, check) && ValidStage(s)
    ensures Valid(s, check)
  {
    ValidIff(s, check);
  }

  // ----- families of groups -----

  lemma {:induction false} CoresApart(gs: seq<seq<int>>, cores: set<int>)
    ensures (forall g :: g in gs ==> ToSet(g) !! cores) <==> Cores(gs) !! cores
  {
    if gs != [] {
      CoresApart(gs[1..], cores);
      assert forall g :: g in gs <==> g == gs[0] || g in gs[1..];
    }
  }

  lemma {:induction false} CoresInside(gs: seq<seq<int>>, cores: set<int>)
    ensures (forall g :: g in gs ==> ToSet(g) <= cores) <==> Cores(gs) <= cores
  {
    if gs != [] {
      CoresInside(gs[1..], cores);
      assert forall g :: g in gs <==> g == gs[0] || g in gs[1..];
    }
  }

  ghost predicate Singles(gs: seq<seq<int>>) {
    forall g :: g in gs ==> |g| == 1
  }

  // ----- the check, in full -----

  ghost predicate AdmittedLead(s: Hunt) {
    && |s.candidates| > 1
    && (exists i :: OnlyAt(s.loaded, s.candidates, i) && (s.inFlight == [] || s.inFlight == [s.loaded[i]]))
    && s.pending == [s.candidates] && s.queue == [] && s.guilty == [] && s.parent == [] && s.found == []
    && s.level == 0 && s.noReproduce == 0
  }

  /** A split holds its parts apart and inside the parent, away from what is pending. */
  ghost predicate AdmittedSplit(s: Hunt) {
    && |s.parent| >= 2 && s.level >= 1
    && Cores(s.queue) + Cores(s.guilty) + ToSet(s.inFlight) <= ToSet(s.parent)
    && Cores(s.queue) !! Cores(s.guilty) && Cores(s.queue) + Cores(s.guilty) !! ToSet(s.inFlight)
    && Cores(s.pending) !! ToSet(s.parent)
    && (|s.queue| == 2 ==> Cores(s.queue) == ToSet(s.parent))
  }

  ghost predicate AdmittedProbe(s: Hunt) {
    && |s.queue| <= 2 && |s.guilty| <= 2
    && (s.pending != [] || s.queue != [] || s.inFlight != [])
    && (if s.parent != [] then AdmittedSplit(s)
        else s.queue == [] && s.guilty == [] && s.inFlight == [] && s.level == 0)
  }

  ghost predicate AdmittedStage(s: Hunt) {
    match s.stage
    case Lead => AdmittedLead(s)
    case Probe => AdmittedProbe(s)
    case _ =>
      && s.pending == [] && s.queue == [] && s.inFlight == [] && s.parent == [] && s.guilty == []
      && (s.stage == Culprit ==> s.found != [])
  }

  lemma LeadStageIff(s: Hunt)
    ensures ValidLead(s) <==> AdmittedLead(s)
  {
    LeadIff(s.candidates, s.loaded);
  }

  lemma TwoCores(a: seq<int>, b: seq<int>)
    ensures Cores([a, b]) == ToSet(a + b)
  {
    assert [a, b] == [a] + [b];
    CoresConcat([a], [b]);
    SingleGroup(a);
    SingleGroup(b);
    ToSetConcat(a, b);
  }

  lemma SplitStageIff(s: Hunt)
    requires Tidy(s) && s.parent != [] && |s.queue| <= 2 && |s.guilty| <= 2
    requires s.pending != [] || s.queue != [] || s.inFlight != []
    ensures ValidProbe(s) <==> AdmittedSplit(s)
  {
    var flight := if s.inFlight != [] then [s.inFlight] else [];
    var halves := s.queue + s.guilty + flight;
    assert Cores(flight) == ToSet(s.inFlight) && Disjoint(flight) by {
      SingleGroup(s.inFlight);
      ToSetEmpty(s.inFlight);
    }
    DisjointConcat(s.queue + s.guilty, flight);
    DisjointConcat(s.queue, s.guilty);
    CoresConcat(s.queue + s.guilty, flight);
    CoresConcat(s.queue, s.guilty);
    CoresInside(halves, ToSet(s.parent));
    CoresApart(s.pending, ToSet(s.parent));
    if |s.queue| == 2 {
      assert s.queue == [s.queue[0], s.queue[1]];
      TwoCores(s.queue[0], s.queue[1]);
    }
  }

  lemma StageIff(s: Hunt)
    requires Tidy(s)
    ensures ValidStage(s) <==> AdmittedStage(s)
  {
    LeadStageIff(s);
    if s.stage == Probe && s.parent != [] && |s.queue| <= 2 && |s.guilty| <= 2 &&
       (s.pending != [] || s.queue != [] || s.inFlight != [])
    {
      SplitStageIff(s);
    }
  }

  /** What the check lets in, in terms of sets of cores. */
  lemma AdmittedIff(s: Hunt, check: Json -> bool)
    ensures Valid(s, check) <==> Tidy(s) && Scalars(s, check) && AdmittedStage(s)
  {
    ValidIff(s, check);
    if Tidy(s) {
      StageIff(s);
    }
  }

  // ----- asking -----

  /** The one way asking breaks an admitted state: a split with nothing queued or in
      flight, beside lone cores only, so that the hunt ends with its parent still set. */
  predicate AskBreaks(s: Hunt) {
    && s.stage == Probe && s.inFlight == [] && s.queue == [] && s.parent != []
    && forall g :: g in s.pending ==> |g| == 1
  }

  lemma {:induction false} AbsorbTidy(s: Hunt)
    requires Tidy(s) && Cores(s.pending) !! Active(s)
    ensures var t := AbsorbSingles(s);
      && t == s.(found := t.found, pending := t.pending)
      && Tidy(t) && Cores(t.pending) !! Active(t)
      && (t.pending == [] <==> Singles(s.pending))
      && (t.pending != [] ==> |t.pending[0]| >= 2)
      && (t.pending == [] && (s.pending != [] || s.found != []) ==> t.found != [])
    decreases |s.pending|
  {
    if s.pending != [] {
      PopFront(s.pending, ToSet(s.candidates));
      assert s.pending[0] != [];
      assert forall g :: g in s.pending <==> g == s.pending[0] || g in s.pending[1..];
      if |s.pending[0]| == 1 {
        SortedUnion(s.found, s.pending[0]);
        var t := s.(found := Sorted(s.found + s.pending[0]), pending := s.pending[1..]);
        assert s.pending[0][0] in ToSet(s.pending[0]);
        ToSetEmpty(t.found);
        assert Active(t) == Active(s);
        AbsorbTidy(t);
      }
    }
  }

  lemma OpenedIsTidy(s: Hunt)
    requires Tidy(s) && s.pending != [] && |s.pending[0]| >= 2
    ensures var t := OpenGroup(s).0;
      && Tidy(t) && ToSet(t.parent) !! Cores(t.pending)
      && t.queue == [Split(t.parent).1] && t.inFlight == Split(t.parent).0 && t.guilty == []
  {
    PopFront(s.pending, ToSet(s.candidates));
    SplitFacts(s.pending[0]);
    SingleGroup(Split(s.pending[0]).1);
    var t := OpenGroup(s).0;
    assert Active(t) <= ToSet(s.pending[0]);
  }

  lemma OpenedLevel(s: Hunt)
    requires Tidy(s) && s.pending != [] && |s.pending[0]| >= 2
    ensures var level := OpenGroup(s).0.level;
      1 <= level <= MaxDepth(|s.candidates|) && Counter(level)
  {
    var g := s.pending[0];
    assert g in s.pending;
    StrictSubsetLength(g, s.candidates);
    LevelNeedsNoClamp(|s.candidates|, |g|);
    StrictLength(s.candidates, MAX_INTEGER + 1);
    BitLengthAtMost(Abs(|s.candidates| - 1));
  }

  lemma OpenedIsValid(s: Hunt, check: Json -> bool)
    requires Tidy(s) && Scalars(s, check) && s.stage == Probe && s.inFlight == []
    requires s.pending != [] && |s.pending[0]| >= 2
    ensures Valid(OpenGroup(s).0, check)
  {
    OpenedIsTidy(s);
    OpenedLevel(s);
    var t := OpenGroup(s).0;
    OpenedStage(t);
    Admit(t, check);
  }

  lemma OpenedStage(t: Hunt)
    requires t.stage == Probe && |t.parent| >= 2 && Strict(t.parent) && t.level >= 1
    requires t.queue == [Split(t.parent).1] && t.inFlight == Split(t.parent).0 && t.guilty == []
    requires ToSet(t.parent) !! Cores(t.pending)
    ensures ValidStage(t)
  {
    SplitFacts(t.parent);
    var (left, right) := Split(t.parent);
    assert t.queue + t.guilty + [t.inFlight] == [right] + [left];
    SingleGroup(left);
    SingleGroup(right);
    DisjointConcat([right], [left]);
    CoresApart(t.pending, ToSet(t.parent));
  }

  /** An empty worklist ends the hunt, validly unless a split is still open. */
  lemma EndedIff(s: Hunt, check: Json -> bool)
    requires Tidy(s) && Scalars(s, check) && s.found != []
    requires s.pending == [] && s.queue == [] && s.inFlight == [] && (s.parent == [] ==> s.guilty == [])
    ensures Valid(s.(stage := Culprit), check) <==> s.parent == []
  {
    var t := s.(stage := Culprit);
    assert Active(t) == Active(s);
    ValidIff(t, check);
  }

  /** Nothing is queued: the worklist is absorbed, then opened or found empty. */
  lemma AskIdle(s: Hunt, check: Json -> bool)
    requires Valid(s, check) && s.stage == Probe && s.inFlight == [] && s.queue == []
    ensures Valid(NextLiveSet(s).0, check) <==> !AskBreaks(s)
  {
    ValidIff(s, check);
    IdleFacts(s, check);
    AbsorbTidy(s);
    var t := AbsorbSingles(s);
    assert NextLiveSet(s) == OpenGroup(t);
    assert AskBreaks(s) <==> s.parent != [] && Singles(s.pending);
    if t.pending != [] {
      OpenedIsValid(t, check);
    } else {
      EndedIff(t, check);
    }
  }

  lemma IdleFacts(s: Hunt, check: Json -> bool)
    requires Tidy(s) && ValidStage(s) && s.stage == Probe && s.inFlight == [] && s.queue == []
    ensures Cores(s.pending) !! Active(s) && s.pending != [] && (s.parent == [] ==> s.guilty == [])
  {
    IdleApart(s);
  }

  lemma IdleApart(s: Hunt)
    requires Tidy(s) && ValidStage(s) && s.stage == Probe && s.inFlight == [] && s.queue == []
    ensures Cores(s.pending) !! Active(s)
  {
    if s.parent != [] {
      CoresApart(s.pending, ToSet(s.parent));
      assert s.queue + s.guilty + [] == s.guilty;
      CoresInside(s.guilty, ToSet(s.parent));
    }
  }

  lemma AskQueued(s: Hunt, check: Json -> bool)
    requires Valid(s, check) && s.stage == Probe && s.inFlight == [] && s.queue != []
    ensures Valid(NextLiveSet(s).0, check)
  {
    ValidIff(s, check);
    QueuedIsValid(s, check);
  }

  lemma QueuedIsValid(s: Hunt, check: Json -> bool)
    requires Tidy(s) && Scalars(s, check) && ValidStage(s) && s.stage == Probe && s.inFlight == [] && s.queue != []
    ensures Valid(Dequeued(s), check)
  {
    QueuedTidy(s);
    QueuedStage(s);
    assert s.queue[0] in s.queue;
    QueuedScalars(s, check);
    Admit(Dequeued(s), check);
  }

  lemma QueuedScalars(s: Hunt, check: Json -> bool)
    requires Scalars(s, check) && s.inFlight == [] && s.queue != [] && s.queue[0] != []
    ensures Scalars(Dequeued(s), check)
  {
  }

  function Dequeued(s: Hunt): Hunt
    requires s.queue != []
  {
    s.(inFlight := s.queue[0], queue := s.queue[1..])
  }

  lemma QueuedTidy(s: Hunt)
    requires Tidy(s) && s.queue != [] && s.inFlight == []
    ensures Tidy(Dequeued(s))
  {
    PopFront(s.queue, ToSet(s.candidates));
    assert Active(Dequeued(s)) == Active(s);
  }

  lemma QueuedStage(s: Hunt)
    requires ValidStage(s) && s.stage == Probe && s.queue != [] && s.inFlight == [] && s.queue[0] != []
    ensures ValidStage(Dequeued(s))
  {
    HalvesShift(s.queue, s.guilty);
  }

  /** Putting the first queued half in flight only reorders the halves. */
  lemma HalvesShift(queue: seq<seq<int>>, guilty: seq<seq<int>>)
    requires queue != []
    ensures Disjoint(queue[1..] + guilty + [queue[0]]) <==> Disjoint(queue + guilty + [])
    ensures forall g :: g in queue[1..] + guilty + [queue[0]] <==> g in queue + guilty + []
  {
    assert queue + guilty + [] == [queue[0]] + (queue[1..] + guilty);
    SingleGroup(queue[0]);
    DisjointConcat([queue[0]], queue[1..] + guilty);
    DisjointConcat(queue[1..] + guilty, [queue[0]]);
    assert forall g :: g in queue <==> g == queue[0] || g in queue[1..];
  }

  lemma AskLead(s: Hunt, check: Json -> bool)
    requires Valid(s, check) && s.stage == Lead && s.inFlight == []
    ensures Valid(NextLiveSet(s).0, check)
  {
    ValidIff(s, check);
    LeadFacts(s.candidates, s.loaded);
    var lead := LeadProbe(s.candidates, s.loaded);
    assert lead == [lead[0]];
    Admit(s.(inFlight := lead), check);
  }

  /** Asking keeps an admitted state admitted, except in exactly one case. */
  lemma AskKeepsValidIff(s: Hunt, check: Json -> bool)
    requires Valid(s, check)
    ensures Valid(NextLiveSet(s).0, check) <==> !AskBreaks(s)
  {
    if s.stage == Lead && s.inFlight == [] {
      AskLead(s, check);
    } else if s.stage == Probe && s.inFlight == [] {
      if s.queue == [] {
        AskIdle(s, check);
      } else {
        AskQueued(s, check);
      }
    }
  }

  // ----- answering -----

  /** The two ways an answer breaks an admitted state: a third guilty set while another
      is still queued, and one retry more than a counter can hold. */
  predicate AnswerBreaks(s: Hunt, reproduced: bool) {
    && s.stage == Probe && s.inFlight != s.parent
    && (if reproduced then s.queue != [] && |s.guilty| == 2
        else s.queue == [] && s.guilty == [] && s.noReproduce == MAX_INTEGER)
  }

  /** What the check knows of a split that is being asked about. */
  lemma AskedSplit(s: Hunt)
    requires Tidy(s) && ValidStage(s) && s.stage == Probe && s.inFlight != []
    ensures |s.parent| >= 2 && s.level >= 1 && |s.queue| <= 2 && |s.guilty| <= 2
    ensures Active(s) == ToSet(s.parent) && Cores(s.pending) !! ToSet(s.parent)
    ensures Cores(s.queue) !! Cores(s.guilty) && Cores(s.queue) + Cores(s.guilty) !! ToSet(s.inFlight)
  {
    CoresApart(s.pending, ToSet(s.parent));
    CoresInside(s.queue + s.guilty + [s.inFlight], ToSet(s.parent));
    DisjointConcat(s.queue + s.guilty, [s.inFlight]);
    DisjointConcat(s.queue, s.guilty);
    CoresConcat(s.queue + s.guilty, [s.inFlight]);
    CoresConcat(s.queue, s.guilty);
    SingleGroup(s.inFlight);
  }

  lemma NoCoresNoGroups(gs: seq<seq<int>>, universe: set<int>)
    requires Groups(gs, universe) && Cores(gs) == {}
    ensures gs == []
  {
    if gs != [] {
      assert gs[0] in gs;
      ToSetEmpty(gs[0]);
    }
  }

  /** A whole parent is asked with nothing else of the split left. */
  lemma WholeIsAlone(s: Hunt)
    requires Tidy(s) && ValidStage(s) && s.stage == Probe && s.inFlight != [] && s.inFlight == s.parent
    ensures s.queue == [] && s.guilty == [] && Cores(s.pending) !! ToSet(s.parent)
  {
    AskedSplit(s);
    NoCoresNoGroups(s.queue, ToSet(s.candidates));
    NoCoresNoGroups(s.guilty, ToSet(s.candidates));
  }

  lemma AnswerWhole(s: Hunt, reproduced: bool, m: int, check: Json -> bool)
    requires Valid(s, check) && s.stage == Probe && s.inFlight != [] && s.inFlight == s.parent && !s.armed
    ensures Valid(Record(s, reproduced, m), check)
  {
    ValidIff(s, check);
    WholeIsAlone(s);
    var t := s.(launchesDone := 0, inFlight := []);
    assert Record(s, reproduced, m) == RecordWholeSet(t, reproduced);
    if reproduced {
      WholeConvicted(t, check);
    } else {
      Admit(RecordWholeSet(t, false), check);
    }
  }

  lemma WholeConvicted(s: Hunt, check: Json -> bool)
    requires Tidy(s) && Scalars(s, check) && s.stage == Probe && s.queue == [] && s.guilty == [] && s.inFlight == []
    requires s.parent != [] && Cores(s.pending) !! ToSet(s.parent)
    ensures Valid(RecordWholeSet(s, true), check)
  {
    SortedUnion(s.found, s.parent);
    ToSetEmpty(s.parent);
    ToSetEmpty(Sorted(s.found + s.parent));
    Admit(RecordWholeSet(s, true), check);
  }

  lemma AnswerLead(s: Hunt, reproduced: bool, m: int, check: Json -> bool)
    requires Valid(s, check) && s.stage == Lead && s.inFlight != [] && !s.armed
    ensures Valid(Record(s, reproduced, m), check)
  {
    ValidIff(s, check);
    var t := Record(s, reproduced, m);
    assert Active(t) == {};
    Admit(t, check);
  }

  /** Another set is queued: the answer is noted and the split goes on. */
  lemma AnswerPart(s: Hunt, reproduced: bool, m: int, check: Json -> bool)
    requires Valid(s, check) && s.stage == Probe && s.inFlight != [] && s.inFlight != s.parent && !s.armed
    requires s.queue != []
    ensures Valid(Record(s, reproduced, m), check) <==> !AnswerBreaks(s, reproduced)
  {
    ValidIff(s, check);
    AskedSplit(s);
    var u := Noted(s, reproduced);
    PartTidy(s, u);
    PartStage(s, u);
    NotedScalars(s, reproduced, check);
    ValidIff(u, check);
  }

  /** A half's answer, noted. */
  function Noted(s: Hunt, reproduced: bool): Hunt {
    var t := s.(launchesDone := 0, inFlight := []);
    if reproduced then t.(guilty := t.guilty + [s.inFlight], noReproduce := 0) else t
  }

  lemma NotedScalars(s: Hunt, reproduced: bool, check: Json -> bool)
    requires Scalars(s, check) && !s.armed
    ensures Scalars(Noted(s, reproduced), check)
  {
  }

  lemma PartTidy(s: Hunt, t: Hunt)
    requires Tidy(s) && s.inFlight != [] && Cores(s.guilty) !! ToSet(s.inFlight)
    requires t.candidates == s.candidates && t.pending == s.pending && t.queue == s.queue && t.inFlight == []
    requires t.parent == s.parent && t.found == s.found && (t.guilty == s.guilty || t.guilty == s.guilty + [s.inFlight])
    ensures Tidy(t)
  {
    SingleGroup(s.inFlight);
    DisjointConcat(s.guilty, [s.inFlight]);
    CoresConcat(s.guilty, [s.inFlight]);
    assert Active(t) <= Active(s);
  }

  lemma PartStage(s: Hunt, t: Hunt)
    requires ValidStage(s) && s.stage == Probe == t.stage && s.parent != [] && s.inFlight != [] && s.queue != []
    requires t.pending == s.pending && t.queue == s.queue && t.inFlight == [] && t.parent == s.parent &&
      t.level == s.level
    requires t.guilty == s.guilty || t.guilty == s.guilty + [s.inFlight]
    ensures ValidStage(t) <==> |t.guilty| <= 2
  {
    var halves := s.queue + s.guilty + [s.inFlight];
    DisjointConcat(s.queue + s.guilty, [s.inFlight]);
    assert t.queue + t.guilty + [] == if t.guilty == s.guilty then s.queue + s.guilty else halves;
  }

  /** Both halves are answered. */
  lemma AnswerClose(s: Hunt, reproduced: bool, m: int, check: Json -> bool)
    requires Valid(s, check) && s.stage == Probe && s.inFlight != [] && s.inFlight != s.parent && !s.armed
    requires s.queue == []
    ensures Valid(Record(s, reproduced, m), check) <==> !AnswerBreaks(s, reproduced)
  {
    ValidIff(s, check);
    AskedSplit(s);
    var u := Noted(s, reproduced);
    PartTidy(s, u);
    NotedScalars(s, reproduced, check);
    assert Record(s, reproduced, m) == CloseSplit(u, m);
    assert Cores(u.guilty) <= ToSet(u.parent) by {
      CoresConcat(s.guilty, [s.inFlight]);
      SingleGroup(s.inFlight);
    }
    if u.guilty != [] {
      ClosedGuilty(u, m, check);
    } else {
      ClosedClean(u, m, check);
    }
  }

  lemma ClosedGuilty(s: Hunt, m: int, check: Json -> bool)
    requires Tidy(s) && Scalars(s, check) && s.stage == Probe && s.queue == [] && s.inFlight == [] && s.guilty != []
    requires Cores(s.guilty) <= ToSet(s.parent) && Cores(s.pending) !! ToSet(s.parent)
    ensures Valid(CloseSplit(s, m), check)
  {
    PushFront(s.guilty, s.pending, ToSet(s.candidates));
    var t := CloseSplit(s, m);
    assert Active(t) == {};
    Admit(t, check);
  }

  /** A clean split is retried or asked whole, as long as the retry can be counted. */
  lemma ClosedClean(s: Hunt, m: int, check: Json -> bool)
    requires Tidy(s) && Scalars(s, check) && s.stage == Probe && s.queue == [] && s.inFlight == [] && s.guilty == []
    requires |s.parent| >= 2 && s.level >= 1 && Cores(s.pending) !! ToSet(s.parent)
    ensures Valid(CloseSplit(s, m), check) <==> s.noReproduce != MAX_INTEGER
  {
    SingleGroup(s.parent);
    PushFront([s.parent], s.pending, ToSet(s.candidates));
    var t := CloseSplit(s, m);
    CoresApart(s.pending, ToSet(s.parent));
    assert t.noReproduce == s.noReproduce + 1;
    if t.parent != [] {
      assert t.queue + t.guilty + [] == [s.parent];
      assert Active(t) == ToSet(s.parent);
    } else {
      assert Active(t) == {};
    }
    ValidIff(t, check);
  }

  /** An answer keeps an admitted state admitted, except in exactly two cases. */
  lemma AnswerKeepsValidIff(s: Hunt, reproduced: bool, m: int, check: Json -> bool)
    requires Valid(s, check) && s.inFlight != [] && !s.armed
    ensures Valid(Record(s, reproduced, m), check) <==> !AnswerBreaks(s, reproduced)
  {
    if s.stage == Lead {
      AnswerLead(s, reproduced, m, check);
    } else {
      ValidIff(s, check);
      if s.inFlight == s.parent {
        AnswerWhole(s, reproduced, m, check);
      } else if s.queue != [] {
        AnswerPart(s, reproduced, m, check);
      } else {
        AnswerClose(s, reproduced, m, check);
      }
    }
  }

  // ----- the three cases are real -----

  /** A split with nothing asked and nothing queued, beside a lone pending core. */
  const STRAY := Hunt(Probe, [0, 1, 2, 3], [[2]], [], [], [0, 1], [], 1, [], 0, 0, [0], 0.0, false, map[], Null)

  lemma StrayIsTidy()
    ensures Tidy(STRAY)
  {
    assert 0 in ToSet([0, 1, 2, 3]) && 1 in ToSet([0, 1, 2, 3]) && 2 in ToSet([0, 1, 2, 3]);
    SingleGroup([2]);
  }

  lemma StrayScalars(check: Json -> bool)
    ensures Scalars(STRAY, check)
  {
    ListingIsCoreSet([0], [0]);
    assert BitLength(3) == 2;
  }

  lemma StrayIsValid(check: Json -> bool)
    ensures Valid(STRAY, check)
  {
    StrayIsTidy();
    StrayScalars(check);
    assert ValidStage(STRAY);
    Admit(STRAY, check);
  }

  /** Asking about a state the check lets in can lead to one it refuses. */
  lemma AskCanBreak(check: Json -> bool)
    ensures Valid(STRAY, check) && !Valid(NextLiveSet(STRAY).0, check)
  {
    StrayIsValid(check);
    AskKeepsValidIff(STRAY, check);
  }

  /** Four singletons of one parent: two guilty, one queued, one in flight. */
  const CROWDED := Hunt(Probe, [0, 1, 2, 3], [], [[2]], [3], [0, 1, 2, 3], [[0], [1]], 1, [], 0, 0, [0], 0.0,
                        false, map[], Null)

  /** A split whose retries are used up to the last a counter holds. */
  const WORN := Hunt(Probe, [0, 1], [], [], [1], [0, 1], [], 1, [], MAX_INTEGER, 0, [0], 0.0, false, map[], Null)

  /** Four singletons share nothing. */
  lemma FourApart()
    ensures Disjoint([[2]] + [[0], [1]] + [[3]]) && Disjoint([[0], [1]])
    ensures Cores([[2]]) == {2} && Cores([[0], [1]]) == {0, 1}
  {
    SingleGroup([0]);
    SingleGroup([1]);
    SingleGroup([2]);
    SingleGroup([3]);
    assert [[0], [1]] == [[0]] + [[1]];
    DisjointConcat([[0]], [[1]]);
    CoresConcat([[0]], [[1]]);
    DisjointConcat([[2]], [[0], [1]]);
    CoresConcat([[2]], [[0], [1]]);
    DisjointConcat([[2]] + [[0], [1]], [[3]]);
  }

  lemma CrowdedInside()
    ensures var universe := ToSet([0, 1, 2, 3]);
      ToSet([0]) <= universe && ToSet([1]) <= universe && ToSet([2]) <= universe && ToSet([3]) <= universe
  {
    assert 0 in ToSet([0, 1, 2, 3]) && 1 in ToSet([0, 1, 2, 3]) && 2 in ToSet([0, 1, 2, 3]) && 3 in ToSet([0, 1, 2, 3]);
  }

  lemma CrowdedIsTidy()
    ensures Tidy(CROWDED)
  {
    FourApart();
    CrowdedInside();
    SingleGroup([2]);
    assert Groups(CROWDED.queue, ToSet(CROWDED.candidates));
    assert Groups(CROWDED.guilty, ToSet(CROWDED.candidates));
  }

  lemma CrowdedStage()
    ensures ValidStage(CROWDED)
  {
    FourApart();
    CrowdedInside();
  }

  lemma CrowdedIsValid(check: Json -> bool)
    ensures Valid(CROWDED, check)
  {
    CrowdedIsTidy();
    CrowdedStage();
    CrowdedScalars(check);
    Admit(CROWDED, check);
  }

  lemma CrowdedScalars(check: Json -> bool)
    ensures Scalars(CROWDED, check)
  {
    ListingIsCoreSet([0], [0]);
    assert BitLength(3) == 2;
  }

  lemma WornIsValid(check: Json -> bool)
    ensures Valid(WORN, check)
  {
    WornIsTidy();
    WornStage();
    WornScalars(check);
    Admit(WORN, check);
  }

  lemma WornIsTidy()
    ensures Tidy(WORN)
  {
    assert 0 in ToSet([0, 1]) && 1 in ToSet([0, 1]);
  }

  lemma WornStage()
    ensures ValidStage(WORN)
  {
    assert 1 in ToSet([0, 1]);
    SingleGroup([1]);
    assert [] + [] + [[1]] == [[1]];
  }

  lemma WornScalars(check: Json -> bool)
    ensures Scalars(WORN, check)
  {
    ListingIsCoreSet([0], [0]);
    assert BitLength(1) == 1;
  }

  /** So can answering, in either way. */
  lemma AnswerCanBreak(m: int, check: Json -> bool)
    ensures Valid(CROWDED, check) && !Valid(Record(CROWDED, true, m), check)
    ensures Valid(WORN, check) && !Valid(Record(WORN, false, m), check)
  {
    CrowdedIsValid(check);
    WornIsValid(check);
    AnswerKeepsValidIff(CROWDED, true, m, check);
    AnswerKeepsValidIff(WORN, false, m, check);
  }
}
