/** The check every persisted hunt passes on its way in and out. */
module HuntValidate {
  import opened Bits
  import opened CoreSets
  import opened Json
  import opened HuntModel
  import opened HuntInvariant

  const MIN_INTEGER := -0x8000_0000

  predicate Counter(n: int) {
    0 <= n <= MAX_INTEGER
  }

  predicate Offset(n: int) {
    MIN_INTEGER <= n <= MAX_INTEGER
  }

  predicate CoreSet(s: seq<int>, mayBeEmpty: bool) {
    && (forall c :: c in s ==> Counter(c))
    && (mayBeEmpty || s != [])
    && s == SortedDistinct(s)
  }

  predicate CoreGroups(gs: seq<seq<int>>) {
    forall g :: g in gs ==> CoreSet(g, false)
  }

  predicate BoundedVector(v: map<int, int>) {
    forall c :: c in v ==> Counter(c) && Offset(v[c])
  }

  predicate ValidFields(s: Hunt, check: Json -> bool) {
    && CoreSet(s.candidates, false)
    && CoreGroups(s.pending) && CoreGroups(s.queue) && CoreGroups(s.guilty)
    && CoreSet(s.inFlight, true) && CoreSet(s.parent, true) && CoreSet(s.found, true)
    && CoreSet(s.loaded, false)
    && Counter(s.level) && Counter(s.noReproduce) && Counter(s.launchesDone)
    && s.observed >= 0.0
    && BoundedVector(s.vector)
    && (s.armed ==> s.vector != map[] && s.inFlight != [])
    && (s.workload != Null ==> check(s.workload))
  }

  predicate ValidSets(s: Hunt) {
    var universe := ToSet(s.candidates);
    var grouped := s.pending + s.queue + s.guilty;
    && Disjoint(s.pending) && Disjoint(s.queue) && Disjoint(s.guilty)
    && (forall g :: g in grouped ==> ToSet(g) <= universe)
    && ToSet(s.inFlight + s.parent) <= universe
    && ToSet(s.found) !! ToSet(s.inFlight + s.parent) + Cores(grouped)
    && ToSet(s.found) <= universe
    && s.level <= MaxDepth(|s.candidates|)
    && (s.launchesDone != 0 ==> s.inFlight != [])
  }

  predicate ValidLead(s: Hunt) {
    var lead := LeadProbe(s.candidates, s.loaded);
    && lead != [] && s.pending == [s.candidates] && (s.inFlight == [] || s.inFlight == lead)
    && s.queue == [] && s.guilty == [] && s.parent == [] && s.found == []
    && s.level == 0 && s.noReproduce == 0
  }

  predicate ValidProbe(s: Hunt) {
    var halves := s.queue + s.guilty + (if s.inFlight != [] then [s.inFlight] else []);
    && |s.queue| <= 2 && |s.guilty| <= 2
    && (if s.parent != [] then
          && |s.parent| >= 2 && s.level >= 1
          && (forall g :: g in halves ==> ToSet(g) <= ToSet(s.parent))
          && Disjoint(halves)
          && (forall g :: g in s.pending ==> ToSet(g) !! ToSet(s.parent))
          && (|s.queue| == 2 ==> ToSet(s.queue[0] + s.queue[1]) == ToSet(s.parent))
        else
          s.queue == [] && s.guilty == [] && s.inFlight == [] && s.level == 0)
    && (s.pending != [] || s.queue != [] || s.inFlight != [])
  }

  predicate ValidDone(s: Hunt) {
    s.pending == [] && s.queue == [] && s.inFlight == [] && s.parent == [] && s.guilty == []
  }

  predicate ValidStage(s: Hunt) {
    match s.stage
    case Lead => ValidLead(s)
    case Probe => ValidProbe(s)
    case Culprit => s.found != [] && ValidDone(s)
    case Exhausted => ValidDone(s)
  }

  /** `check` accepts a workload description; the program delegates it. */
  predicate Valid(s: Hunt, check: Json -> bool) {
    ValidFields(s, check) && ValidSets(s) && ValidStage(s)
  }

  /** What the caller keeps true of the fields it owns. */
  ghost predicate CallerFields(s: Hunt, check: Json -> bool) {
    && CoreSet(s.loaded, false)
    && s.noReproduce <= MAX_INTEGER
    && Counter(s.launchesDone) && (s.launchesDone != 0 ==> s.inFlight != [])
    && s.observed >= 0.0
    && BoundedVector(s.vector)
    && (s.armed ==> s.vector != map[] && s.inFlight != [])
    && (s.workload != Null ==> check(s.workload))
  }

  // ----- the invariant passes the check -----

  lemma ListingIsCoreSet(s: seq<int>, candidates: seq<int>)
    requires Listing(s, ToSet(candidates)) && forall c :: c in candidates ==> Counter(c)
    ensures CoreSet(s, true) && (s != [] ==> CoreSet(s, false))
  {
    SortedDistinctIsStrict(s);
    forall c | c in s
      ensures Counter(c)
    {
      assert c in ToSet(s);
    }
  }

  lemma GroupsAreCoreGroups(gs: seq<seq<int>>, candidates: seq<int>)
    requires forall g :: g in gs ==> g != [] && Listing(g, ToSet(candidates))
    requires forall c :: c in candidates ==> Counter(c)
    ensures CoreGroups(gs)
  {
    forall g | g in gs
      ensures CoreSet(g, false)
    {
      ListingIsCoreSet(g, candidates);
    }
  }

  lemma {:induction false} BitLengthAtMost(n: nat)
    ensures BitLength(n) <= n
  {
    if n > 0 {
      BitLengthAtMost(n / 2);
    }
  }

  lemma {:induction false} StrictLength(s: seq<int>, bound: nat)
    requires Strict(s) && forall c :: c in s ==> 0 <= c < bound
    ensures |s| <= bound
  {
    if s != [] {
      var last := s[|s| - 1];
      assert last in s;
      var front := s[..|s| - 1];
      forall c | c in front
        ensures 0 <= c < last
      {
        assert c in s;
      }
      StrictLength(front, last);
    }
  }

  /** In a reachable split the level needs neither clamp: it is one more than the
      number of halvings above the group, and within the split depth. */
  lemma LevelNeedsNoClamp(n: nat, size: nat)
    requires 2 <= size <= n
    ensures SplitLevel(n, size) == MaxDepth(n) - BitLength(size - 1) + 1
    ensures 1 <= SplitLevel(n, size) <= MaxDepth(n)
  {
    BitLengthMonotone(size - 1, n - 1);
  }

  lemma LevelWithinDepth(s: Hunt)
    requires Inv(s)
    ensures Counter(s.level) && s.level <= MaxDepth(|s.candidates|)
    ensures s.stage == Probe && s.parent != [] ==> s.level >= 1
  {
    assert 0 <= MaxDepth(|s.candidates|) <= MAX_INTEGER by {
      StrictLength(s.candidates, MAX_INTEGER + 1);
      BitLengthAtMost(Abs(|s.candidates| - 1));
    }
    if s.stage == Probe && s.parent != [] {
      StrictSubsetLength(s.parent, s.candidates);
      LevelNeedsNoClamp(|s.candidates|, |s.parent|);
    }
  }

  /** The active groups of a split lie inside the parent and are disjoint. */
  lemma HalvesInParent(s: Hunt)
    requires Inv(s) && s.stage == Probe && s.parent != []
    ensures var universe := ToSet(s.candidates);
      var halves := s.queue + s.guilty + (if s.inFlight != [] then [s.inFlight] else []);
      && Groups(halves, ToSet(s.parent)) && Disjoint(s.queue) && Disjoint(s.guilty)
      && |s.queue| <= 1 && |s.guilty| <= 1
      && Listing(s.inFlight, ToSet(s.parent))
  {
    SplitFacts(s.parent);
    var (left, right) := Split(s.parent);
    SingleGroup(left);
    SingleGroup(right);
    SingleGroup(s.parent);
    DisjointConcat([left], [right]);
    DisjointConcat([right], [left]);
    var flight := if s.inFlight != [] then [s.inFlight] else [];
    var halves := s.queue + s.guilty + flight;
    if AskingWhole(s) {
      assert halves == [s.parent];
    } else if FirstHalf(s) {
      assert halves == [right] || halves == [right] + [left];
    } else {
      assert halves == [right] || halves == [left] + [right];
    }
  }

  lemma ActiveSetsOutsideParent(s: Hunt)
    requires Inv(s) && (s.stage != Probe || s.parent == [])
    ensures s.queue == [] && s.guilty == [] && s.parent == []
    ensures s.stage != Lead ==> s.inFlight == []
  {
  }

  lemma InvIsValidSets(s: Hunt)
    requires Inv(s) && (s.launchesDone != 0 ==> s.inFlight != [])
    ensures ValidSets(s)
  {
    var universe := ToSet(s.candidates);
    var grouped := s.pending + s.queue + s.guilty;
    LevelWithinDepth(s);
    ToSetConcat(s.inFlight, s.parent);
    CoresConcat(s.pending + s.queue, s.guilty);
    CoresConcat(s.pending, s.queue);
    if s.stage == Probe && s.parent != [] {
      HalvesInParent(s);
      var flight := if s.inFlight != [] then [s.inFlight] else [];
      CoresConcat(s.queue + s.guilty, flight);
      CoresConcat(s.queue, s.guilty);
      CoresWithin(s.queue + s.guilty + flight, ToSet(s.parent));
    } else {
      ActiveSetsOutsideParent(s);
      LeadFacts(s.candidates, s.loaded);
    }
  }

  lemma {:induction false} CoresWithin(gs: seq<seq<int>>, universe: set<int>)
    requires forall g :: g in gs ==> ToSet(g) <= universe
    ensures Cores(gs) <= universe
  {
    if gs != [] {
      assert gs[0] in gs;
      assert forall g :: g in gs[1..] ==> g in gs;
      CoresWithin(gs[1..], universe);
    }
  }

  lemma InvIsValidStage(s: Hunt)
    requires Inv(s)
    ensures ValidStage(s)
  {
    if s.stage == Probe && s.parent != [] {
      HalvesInParent(s);
      LevelWithinDepth(s);
      forall g | g in s.pending
        ensures ToSet(g) !! ToSet(s.parent)
      {
        MemberWithin(s.pending, g);
      }
    }
  }

  lemma ActiveCoreSets(s: Hunt)
    requires Inv(s)
    ensures CoreGroups(s.queue) && CoreGroups(s.guilty) && CoreSet(s.inFlight, true)
  {
    if s.stage == Probe && s.parent != [] {
      HalvesInParent(s);
      GroupsAreCoreGroups(s.queue, s.candidates);
      GroupsAreCoreGroups(s.guilty, s.candidates);
      ListingIsCoreSet(s.inFlight, s.candidates);
    } else {
      ActiveSetsOutsideParent(s);
      LeadFacts(s.candidates, s.loaded);
      ListingIsCoreSet(s.inFlight, s.candidates);
    }
  }

  lemma InvIsValidFields(s: Hunt, check: Json -> bool)
    requires Inv(s) && CallerFields(s, check)
    ensures ValidFields(s, check)
  {
    ListingIsCoreSet(s.candidates, s.candidates);
    GroupsAreCoreGroups(s.pending, s.candidates);
    ListingIsCoreSet(s.parent, s.candidates);
    ListingIsCoreSet(s.found, s.candidates);
    ActiveCoreSets(s);
    LevelWithinDepth(s);
  }

  lemma InvIsValid(s: Hunt, check: Json -> bool)
    requires Inv(s) && CallerFields(s, check)
    ensures Valid(s, check)
  {
    InvIsValidFields(s, check);
    InvIsValidSets(s);
    InvIsValidStage(s);
  }
}
