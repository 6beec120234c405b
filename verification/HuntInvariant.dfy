/** What every state reached by a hunt looks like. The persisted-state check of the
    program is weaker than this and is not inductive by itself. */
module HuntInvariant {
  import opened CoreSets
  import opened HuntModel

  const MAX_INTEGER := 0x7FFF_FFFF

  // ----- shapes -----

  /** Between splits: only the worklist, whose front group may be a retry. */
  ghost predicate Idle(s: Hunt) {
    && s.parent == [] && s.queue == [] && s.inFlight == [] && s.guilty == []
    && s.level == 0 && s.pending != []
    && (s.noReproduce > 0 ==> |s.pending[0]| >= 2)
  }

  /** The larger half of the parent is asked or answered, the other one is queued. */
  ghost predicate FirstHalf(s: Hunt) {
    var (left, right) := Split(s.parent);
    && s.queue == [right]
    && (|| (s.inFlight == left && s.guilty == [])
        || (s.inFlight == [] && (s.guilty == [] || s.guilty == [left])))
  }

  ghost predicate SecondHalf(s: Hunt) {
    var (left, right) := Split(s.parent);
    && s.queue == [] && s.inFlight == right && (s.guilty == [] || s.guilty == [left])
  }

  ghost predicate Halving(s: Hunt) {
    && |s.parent| >= 2
    && s.level == SplitLevel(|s.candidates|, |s.parent|)
    && (FirstHalf(s) || SecondHalf(s))
    && (s.guilty != [] ==> s.noReproduce == 0)
  }

  /** Both halves stayed clean through every retry; the parent is asked whole. */
  ghost predicate AskingWhole(s: Hunt) {
    && |s.parent| >= 2 && s.guilty == [] && s.noReproduce > 0
    && s.level == SplitLevel(|s.candidates|, |s.parent|)
    && (|| (s.inFlight == [] && s.queue == [s.parent])
        || (s.inFlight == s.parent && s.queue == []))
  }

  ghost predicate Leading(s: Hunt) {
    var lead := LeadProbe(s.candidates, s.loaded);
    && lead != [] && s.pending == [s.candidates] && (s.inFlight == [] || s.inFlight == lead)
    && s.queue == [] && s.guilty == [] && s.parent == [] && s.found == []
    && s.level == 0 && s.noReproduce == 0
  }

  ghost predicate Done(s: Hunt) {
    && s.pending == [] && s.queue == [] && s.inFlight == [] && s.parent == [] && s.guilty == []
    && s.level == 0
    && (s.stage == Culprit <==> s.found != [])
  }

  ghost predicate Shape(s: Hunt) {
    match s.stage
    case Lead => Leading(s)
    case Probe => Idle(s) || Halving(s) || AskingWhole(s)
    case Culprit => Done(s)
    case Exhausted => Done(s)
  }

  // ----- sets -----

  ghost predicate Listing(s: seq<int>, universe: set<int>) {
    Strict(s) && ToSet(s) <= universe
  }

  ghost predicate Groups(gs: seq<seq<int>>, universe: set<int>) {
    && (forall g :: g in gs ==> g != [] && Listing(g, universe))
    && Disjoint(gs)
  }

  ghost predicate Sets(s: Hunt) {
    var universe := ToSet(s.candidates);
    && s.candidates != [] && Strict(s.candidates)
    && (forall c :: c in s.candidates ==> 0 <= c <= MAX_INTEGER)
    && Groups(s.pending, universe)
    && Listing(s.parent, universe)
    && Listing(s.found, universe)
    && ToSet(s.parent) !! Cores(s.pending)
    && ToSet(s.found) !! Cores(s.pending)
    && ToSet(s.found) !! ToSet(s.parent)
  }

  ghost predicate Inv(s: Hunt) {
    Sets(s) && Shape(s) && s.noReproduce >= 0
  }

  predicate Terminal(s: Hunt) {
    s.stage == Culprit || s.stage == Exhausted
  }

  // ----- splitting -----

  lemma SplitFacts(g: seq<int>)
    requires |g| >= 2 && Strict(g)
    ensures var (left, right) := Split(g);
      && left != [] && right != [] && left + right == g
      && Strict(left) && Strict(right)
      && |left| == (|g| + 1) / 2 && |right| == |g| / 2
      && |left| < |g| && |right| < |g|
      && ToSet(left) + ToSet(right) == ToSet(g)
      && ToSet(left) !! ToSet(right)
  {
    var (left, right) := Split(g);
    assert left + right == g;
    ToSetConcat(left, right);
    forall c | c in left
      ensures c !in right
    {
      var i :| 0 <= i < |left| && left[i] == c;
      assert forall j :: 0 <= j < |right| ==> c < g[|left| + j] == right[j];
    }
  }

  lemma LeadFacts(candidates: seq<int>, loaded: seq<int>)
    ensures var lead := LeadProbe(candidates, loaded);
      lead != [] ==> |lead| == 1 && lead[0] in candidates && lead[0] in loaded && |candidates| > 1
  {
    var lead := Common(loaded, candidates);
    if |lead| == 1 {
      CommonHas(loaded, candidates, lead[0]);
    }
  }

  lemma {:induction false} CommonHas(loaded: seq<int>, candidates: seq<int>, c: int)
    ensures c in Common(loaded, candidates) <==> c in loaded && c in candidates
  {
    if loaded != [] {
      CommonHas(loaded[1..], candidates, c);
    }
  }

  /** Position `i` is the only one at which a loaded core is a candidate. */
  ghost predicate OnlyAt(loaded: seq<int>, candidates: seq<int>, i: int) {
    && 0 <= i < |loaded| && loaded[i] in candidates
    && forall j :: 0 <= j < |loaded| && j != i ==> loaded[j] !in candidates
  }

  lemma {:induction false} CommonNone(loaded: seq<int>, candidates: seq<int>)
    ensures Common(loaded, candidates) == [] <==> forall j :: 0 <= j < |loaded| ==> loaded[j] !in candidates
  {
    if loaded != [] {
      CommonNone(loaded[1..], candidates);
      assert forall j :: 1 <= j < |loaded| ==> loaded[j] == loaded[1..][j - 1];
    }
  }

  lemma {:induction false} CommonOne(loaded: seq<int>, candidates: seq<int>)
    ensures forall i :: OnlyAt(loaded, candidates, i) ==> Common(loaded, candidates) == [loaded[i]]
    ensures |Common(loaded, candidates)| == 1 ==> exists i :: OnlyAt(loaded, candidates, i)
  {
    if loaded != [] {
      var rest := loaded[1..];
      assert forall j :: 1 <= j < |loaded| ==> loaded[j] == rest[j - 1];
      assert forall j :: 0 <= j < |rest| ==> rest[j] == loaded[j + 1];
      CommonNone(rest, candidates);
      CommonOne(rest, candidates);
      forall i | OnlyAt(loaded, candidates, i)
        ensures Common(loaded, candidates) == [loaded[i]]
      {
        if i > 0 {
          assert OnlyAt(rest, candidates, i - 1);
        }
      }
      if |Common(loaded, candidates)| == 1 {
        if loaded[0] in candidates {
          assert OnlyAt(loaded, candidates, 0);
        } else {
          var i :| OnlyAt(rest, candidates, i);
          assert OnlyAt(loaded, candidates, i + 1);
        }
      }
    }
  }

  /** There is a lead exactly when one loaded core, and one only, is among several
      candidates; it is that core. */
  lemma LeadIff(candidates: seq<int>, loaded: seq<int>)
    ensures LeadProbe(candidates, loaded) != [] <==>
            |candidates| > 1 && exists i :: OnlyAt(loaded, candidates, i)
    ensures forall i :: |candidates| > 1 && OnlyAt(loaded, candidates, i) ==>
              LeadProbe(candidates, loaded) == [loaded[i]]
  {
    CommonOne(loaded, candidates);
  }

  // ----- next_live_set keeps the invariant -----

  ghost predicate Worklist(s: Hunt) {
    && s.stage == Probe
    && s.parent == [] && s.queue == [] && s.inFlight == [] && s.guilty == [] && s.level == 0
    && Sets(s) && s.noReproduce >= 0
    && (s.noReproduce > 0 && s.pending != [] ==> |s.pending[0]| >= 2)
  }

  /** Popping the front group leaves a family of disjoint groups without its cores. */
  lemma PopFront(gs: seq<seq<int>>, universe: set<int>)
    requires Groups(gs, universe) && gs != []
    ensures Groups(gs[1..], universe)
    ensures Cores(gs) == ToSet(gs[0]) + Cores(gs[1..]) && ToSet(gs[0]) !! Cores(gs[1..])
    ensures gs[0] in gs
  {
    assert forall g :: g in gs[1..] ==> g in gs;
  }

  lemma PushFront(front: seq<seq<int>>, gs: seq<seq<int>>, universe: set<int>)
    requires Groups(front, universe) && Groups(gs, universe) && Cores(front) !! Cores(gs)
    ensures Groups(front + gs, universe) && Cores(front + gs) == Cores(front) + Cores(gs)
  {
    DisjointConcat(front, gs);
    CoresConcat(front, gs);
  }

  lemma {:induction false} AbsorbKeeps(s: Hunt)
    requires Worklist(s)
    ensures var t := AbsorbSingles(s);
      && Worklist(t)
      && t == s.(found := t.found, pending := t.pending)
      && (t.pending != [] ==> |t.pending[0]| >= 2)
      && ToSet(t.found) + Cores(t.pending) == ToSet(s.found) + Cores(s.pending)
      && ToSet(s.found) <= ToSet(t.found)
      && (s.pending != [] && t.pending == [] ==> t.found != [])
    decreases |s.pending|
  {
    if s.pending != [] {
      PopFront(s.pending, ToSet(s.candidates));
      if |s.pending[0]| == 1 {
        SortedUnion(s.found, s.pending[0]);
        var t := s.(found := Sorted(s.found + s.pending[0]), pending := s.pending[1..]);
        assert s.pending[0][0] in ToSet(s.pending[0]);
        assert t.found != [] by {
          ToSetEmpty(t.found);
        }
        AbsorbKeeps(t);
        ToSetEmpty(AbsorbSingles(t).found);
      }
    }
  }

  lemma OpenKeeps(s: Hunt)
    requires Worklist(s) && (s.pending != [] ==> |s.pending[0]| >= 2)
    ensures Inv(OpenGroup(s).0)
  {
    if s.pending != [] {
      PopFront(s.pending, ToSet(s.candidates));
      SplitFacts(s.pending[0]);
      var t := OpenGroup(s).0;
      assert FirstHalf(t);
    }
  }

  lemma NextKeepsInv(s: Hunt)
    requires Inv(s)
    ensures Inv(NextLiveSet(s).0)
  {
    if s.stage == Probe && s.inFlight == [] {
      if s.queue != [] {
        SplitFacts(s.parent);
        var t := NextLiveSet(s).0;
        assert s.queue[1..] == [];
        if Halving(s) {
          assert SecondHalf(t);
        }
      } else {
        IdleWhenEmpty(s);
        AbsorbKeeps(s);
        OpenKeeps(AbsorbSingles(s));
      }
    }
  }

  lemma IdleWhenEmpty(s: Hunt)
    requires Inv(s) && s.stage == Probe && s.inFlight == [] && s.queue == []
    ensures Idle(s) && Worklist(s)
  {
    if Halving(s) {
      SplitFacts(s.parent);
    }
  }

  /** A mask is handed out exactly when the hunt is not over, and it is never empty. */
  lemma NextAsksUnlessOver(s: Hunt)
    requires Inv(s)
    ensures var (t, live) := NextLiveSet(s);
      && (live.None? <==> Terminal(t))
      && (live.Some? ==> live.value != [] && live.value == t.inFlight)
      && (live.None? ==> t.inFlight == [])
  {
    NextKeepsInv(s);
    if s.stage == Probe {
      if Halving(s) {
        SplitFacts(s.parent);
      } else if Idle(s) && s.inFlight == [] {
        AbsorbKeeps(s);
        var t := AbsorbSingles(s);
        if t.pending != [] {
          PopFront(t.pending, ToSet(t.candidates));
          SplitFacts(t.pending[0]);
        }
      }
    }
  }

  // ----- record keeps the invariant -----

  lemma RecordKeepsInv(s: Hunt, reproduced: bool, m: int)
    requires Inv(s) && s.inFlight != []
    ensures Inv(Record(s, reproduced, m))
  {
    if s.stage == Lead {
      LeadFacts(s.candidates, s.loaded);
    } else if AskingWhole(s) {
      if reproduced {
        SortedUnion(s.found, s.parent);
        ToSetEmpty(s.parent);
        ToSetEmpty(Sorted(s.found + s.parent));
      }
    } else {
      RecordHalfKeepsInv(s, reproduced, m);
    }
  }

  lemma RecordHalfKeepsInv(s: Hunt, reproduced: bool, m: int)
    requires Inv(s) && s.stage == Probe && Halving(s) && s.inFlight != []
    ensures Inv(Record(s, reproduced, m))
  {
    SplitFacts(s.parent);
    var (left, right) := Split(s.parent);
    if FirstHalf(s) {
      assert FirstHalf(Record(s, reproduced, m));
    } else {
      var t := s.(launchesDone := 0, inFlight := []);
      var u := if reproduced then t.(guilty := t.guilty + [right], noReproduce := 0) else t;
      CloseKeepsInv(u, m);
    }
  }

  /** Both halves of the parent are answered. */
  ghost predicate Answered(s: Hunt) {
    var (left, right) := Split(s.parent);
    && Sets(s) && s.stage == Probe && |s.parent| >= 2
    && s.level == SplitLevel(|s.candidates|, |s.parent|)
    && s.queue == [] && s.inFlight == [] && s.noReproduce >= 0
    && (s.guilty == [] || s.guilty == [left] || s.guilty == [right] || s.guilty == [left] + [right])
    && (s.guilty != [] ==> s.noReproduce == 0)
  }

  lemma CloseKeepsInv(s: Hunt, m: int)
    requires Answered(s)
    ensures Inv(CloseSplit(s, m))
  {
    var universe := ToSet(s.candidates);
    var t := CloseSplit(s, m);
    if s.guilty != [] {
      GuiltyGroups(s.parent, s.guilty, universe);
      PushFront(s.guilty, s.pending, universe);
      assert Idle(t);
    } else if s.noReproduce + 1 >= m {
      assert AskingWhole(t);
    } else {
      SingleGroup(s.parent);
      PushFront([s.parent], s.pending, universe);
      assert Idle(t);
    }
  }

  /** Whatever halves of a group are guilty form disjoint groups inside it. */
  lemma GuiltyGroups(parent: seq<int>, guilty: seq<seq<int>>, universe: set<int>)
    requires |parent| >= 2 && Listing(parent, universe)
    requires var (left, right) := Split(parent);
      guilty == [left] || guilty == [right] || guilty == [left] + [right]
    ensures Groups(guilty, universe) && Cores(guilty) <= ToSet(parent)
  {
    SplitFacts(parent);
    var (left, right) := Split(parent);
    SingleGroup(left);
    SingleGroup(right);
    DisjointConcat([left], [right]);
    CoresConcat([left], [right]);
  }
}
