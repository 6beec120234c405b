/** How long a hunt insists before it gives a group up: both halves, round after round,
    before the group is asked whole, and no sooner. */
module HuntPatience {
  import opened Wrappers
  import opened CoreSets
  import opened Json
  import opened HuntModel
  import opened HuntInvariant
  import opened HuntBound
  import opened HuntRuns
  import opened HuntOracle
  import opened HuntDescent

  // ----- a hunt in which nothing ever fails -----

  ghost predicate AllClean(answers: seq<bool>) {
    forall i :: 0 <= i < |answers| ==> !answers[i]
  }

  /** The k-th mask of a search that never sees a failure. */
  function CleanMask(g: seq<int>, tries: nat, k: nat): seq<int> {
    if k >= 2 * tries then g else if k % 2 == 0 then Split(g).0 else Split(g).1
  }

  lemma {:induction false} CleanDescent(g: seq<int>, answers: seq<bool>, tries: nat, patience: nat)
    requires |g| >= 2 && tries >= 1 && AllClean(answers)
    ensures var r := Descend(g, answers, tries, patience);
      && |r.masks| == (if |answers| > 2 * tries then 2 * tries + 1 else |answers| + 1)
      && (forall k :: 0 <= k < |r.masks| ==> r.masks[k] == CleanMask(g, tries, k))
      && r.convicted == {}
      && r.ending == (if |answers| > 2 * tries then Cleared else Paused)
    decreases tries
  {
    if |answers| >= 2 {
      var rest := answers[2..];
      if tries > 1 {
        CleanDescent(g, rest, tries - 1, patience);
        var r := Descend(g, rest, tries - 1, patience);
        forall k | 2 <= k < |r.masks| + 2
          ensures ([Split(g).0, Split(g).1] + r.masks)[k] == CleanMask(g, tries, k)
        {
          assert r.masks[k - 2] == CleanMask(g, tries - 1, k - 2);
        }
      }
    }
  }

  /** When nothing reproduces any more, a hunt over two cores or more and without a lead
      asks the halves in turn, `max(m, 1)` times over, then everything at once, and ends
      with nothing convicted: `2 max(m, 1) + 1` masks, never fewer and never more. */
  lemma CleanHuntCount(candidates: seq<int>, loaded: seq<int>, observed: real, answers: seq<bool>, m: int)
    requires Begin(candidates, loaded, observed).Some? && |candidates| >= 2 && AllClean(answers)
    requires var b := Begin(candidates, loaded, observed).value; LeadProbe(b.candidates, b.loaded) == []
    ensures var b := Begin(candidates, loaded, observed).value;
      var p := Play(b, answers, m);
      var all := 2 * Retries(m) + 1;
      && |p.masks| == (if |answers| >= all then all else |answers| + 1)
      && (forall k :: 0 <= k < |p.masks| ==> p.masks[k] == CleanMask(b.candidates, Retries(m), k))
      && (Terminal(p.final) <==> |answers| >= all)
      && (Terminal(p.final) ==> p.final.stage == Exhausted && p.final.found == [])
  {
    BeginReady(candidates, loaded, observed, m);
    HuntIsDescent(candidates, loaded, observed, answers, m);
    var b := Begin(candidates, loaded, observed).value;
    CleanDescent(b.candidates, answers, Retries(m), Retries(m));
    ToSetEmpty(ListSet({}));
  }

  // ----- a group is asked whole only when patience is spent -----

  /** Masks and answers number `k` and `k + 1` are a round of `g` in which nothing failed. */
  ghost predicate CleanRound(g: seq<int>, masks: seq<seq<int>>, answers: seq<bool>, k: int) {
    && 0 <= k && k + 1 < |masks| && k + 1 < |answers|
    && masks[k] == Split(g).0 && masks[k + 1] == Split(g).1
    && !answers[k] && !answers[k + 1]
  }

  /** The `rounds` rounds before number `end` were all clean rounds of `g`. */
  ghost predicate CleanRounds(g: seq<int>, masks: seq<seq<int>>, answers: seq<bool>, end: int, rounds: nat) {
    forall j :: 1 <= j <= rounds ==> CleanRound(g, masks, answers, end - 2 * j)
  }

  /** What the past masks and answers of a hunt say about the group it is at. */
  ghost predicate Remembers(t: Hunt, masks: seq<seq<int>>, answers: seq<bool>, m: int) {
    var n := |answers|;
    && Inv(t) && t.launchesDone == 0 && RetriesWithin(t, Retries(m))
    && |masks| == n + 1 && masks[n] == t.inFlight != []
    && (t.stage == Probe ==>
          if SecondHalf(t) then
            && n >= 1 && masks[n - 1] == Split(t.parent).0 && (t.guilty == [] ==> !answers[n - 1])
            && CleanRounds(t.parent, masks, answers, n - 1, t.noReproduce)
          else CleanRounds(t.parent, masks, answers, n, t.noReproduce))
    && (t.stage == Probe && AskingWhole(t) ==> t.noReproduce >= Retries(m))
  }

  lemma RoundsStay(
    g: seq<int>, masks: seq<seq<int>>, answers: seq<bool>, end: int, rounds: nat, mask: seq<int>, a: bool)
    requires CleanRounds(g, masks, answers, end, rounds)
    ensures CleanRounds(g, masks + [mask], answers + [a], end, rounds)
  {
    forall j | 1 <= j <= rounds
      ensures CleanRound(g, masks + [mask], answers + [a], end - 2 * j)
    {
      assert CleanRound(g, masks, answers, end - 2 * j);
    }
  }

  lemma OneMoreRound(g: seq<int>, masks: seq<seq<int>>, answers: seq<bool>, end: int, rounds: nat)
    requires CleanRounds(g, masks, answers, end, rounds) && CleanRound(g, masks, answers, end)
    ensures CleanRounds(g, masks, answers, end + 2, rounds + 1)
  {
    forall j | 1 <= j <= rounds + 1
      ensures CleanRound(g, masks, answers, end + 2 - 2 * j)
    {
      if j > 1 {
        assert CleanRound(g, masks, answers, end - 2 * (j - 1));
      }
    }
  }

  /** The worklist before the group at hand was taken from it. */
  ghost function Shelved(t: Hunt, noReproduce: int): Hunt {
    t.(pending := [t.parent] + t.pending, parent := [], level := 0, queue := [], inFlight := [], guilty := [],
       noReproduce := noReproduce)
  }

  lemma ShelvedIsAtGroup(t: Hunt, r: int, m: int)
    requires Inv(t) && t.stage == Probe && Halving(t) && t.launchesDone == 0 && 0 <= r < Retries(m)
    ensures AtGroup(Shelved(t, r), m) && Shelved(t, r).pending[0] == t.parent
    ensures t.inFlight != [] && FirstHalf(t) && r == t.noReproduce ==> Opened(Shelved(t, r)) == t
    ensures t.inFlight != [] && SecondHalf(t) && t.guilty == [] && r == t.noReproduce ==>
      Turned(Shelved(t, r), false) == t
    ensures t.inFlight != [] && SecondHalf(t) && t.guilty != [] ==> Turned(Shelved(t, r), true) == t
  {
    SplitFacts(t.parent);
    SingleGroup(t.parent);
    PushFront([t.parent], t.pending, ToSet(t.candidates));
    assert ([t.parent] + t.pending)[1..] == t.pending;
  }

  lemma NextKeepsCount(s: Hunt)
    ensures NextLiveSet(s).0.noReproduce == s.noReproduce && NextLiveSet(s).0.launchesDone == s.launchesDone
  {
    AbsorbCost(s, 0);
  }

  /** A group taken up for the first time has no rounds behind it. */
  lemma RemembersNothing(x: Hunt, masks: seq<seq<int>>, answers: seq<bool>, m: int)
    requires Ready(x, m) && x.noReproduce == 0 && x.launchesDone == 0 && x.queue == [] && x.inFlight == []
    requires |masks| == |answers|
    ensures var (u, live) := NextLiveSet(x);
      live.Some? ==> Remembers(u, masks + [live.value], answers, m)
  {
    DriveStep(x, r => false, m);
    NextAsksUnlessOver(x);
    NextKeepsCount(x);
    var (u, live) := NextLiveSet(x);
    if live.Some? && u.stage == Probe {
      assert !SecondHalf(u) by {
        OpenedHasQueue(x);
      }
    }
  }

  lemma OpenedHasQueue(x: Hunt)
    requires Inv(x) && x.queue == [] && x.inFlight == [] && x.stage == Probe
    ensures NextLiveSet(x).1.Some? ==> NextLiveSet(x).0.queue != []
  {
  }

  lemma FirstRemembered(t: Hunt, masks: seq<seq<int>>, answers: seq<bool>, a: bool, m: int)
    requires Remembers(t, masks, answers, m) && t.stage == Probe && Halving(t) && FirstHalf(t)
    ensures var (u, live) := NextLiveSet(Record(t, a, m));
      live.Some? && Remembers(u, masks + [live.value], answers + [a], m)
  {
    var s := Shelved(t, t.noReproduce);
    ShelvedIsAtGroup(t, t.noReproduce, m);
    GroupAtFront(s, m);
    TurnsOver(s, a, m);
    AnsweredReady(t, a, m);
    RoundsStay(t.parent, masks, answers, |answers|, t.noReproduce, Split(t.parent).1, a);
    assert SecondHalf(Turned(s, a));
  }

  lemma AnsweredReady(t: Hunt, a: bool, m: int)
    requires Ready(t, m) && t.inFlight != []
    ensures Ready(Record(t, a, m), m) && Ready(NextLiveSet(Record(t, a, m)).0, m)
  {
    RecordKeepsInv(t, a, m);
    RecordSpendsOne(t, a, m, Retries(m));
    NextKeepsInv(Record(t, a, m));
    NextKeepsPotential(Record(t, a, m), Retries(m));
  }

  lemma WholeRemembered(t: Hunt, masks: seq<seq<int>>, answers: seq<bool>, a: bool, m: int)
    requires Remembers(t, masks, answers, m) && t.stage == Probe && AskingWhole(t)
    ensures var (u, live) := NextLiveSet(Record(t, a, m));
      live.Some? ==> Remembers(u, masks + [live.value], answers + [a], m)
  {
    AnsweredReady(t, a, m);
    NextAsksUnlessOver(Record(t, a, m));
    if a {
      RemembersNothing(Record(t, a, m), masks, answers + [a], m);
    }
  }

  lemma SecondRemembered(t: Hunt, masks: seq<seq<int>>, answers: seq<bool>, a: bool, m: int)
    requires Remembers(t, masks, answers, m) && t.stage == Probe && Halving(t) && SecondHalf(t)
    ensures var (u, live) := NextLiveSet(Record(t, a, m));
      live.Some? ==> Remembers(u, masks + [live.value], answers + [a], m)
  {
    AnsweredReady(t, a, m);
    var s := Shelved(t, t.noReproduce);
    ShelvedIsAtGroup(t, t.noReproduce, m);
    RoundEnds(s, t.guilty != [], a, m);
    if t.guilty != [] || a {
      RemembersNothing(Record(t, a, m), masks, answers + [a], m);
    } else {
      CleanRemembered(t, s, masks, answers, m);
    }
  }

  /** After a clean round the same group is split again, or asked whole. */
  lemma CleanNext(s: Hunt, m: int)
    requires AtGroup(s, m) && |s.pending[0]| >= 2
    ensures var g, r := s.pending[0], s.noReproduce + 1;
      var (u, live) := NextLiveSet(RoundOver(s, false, false, m));
      && u.stage == Probe && u.parent == g && u.noReproduce == r && u.launchesDone == 0 && u.guilty == []
      && (if Tries(s, m) > 1 then u.inFlight == Split(g).0 && u.queue == [Split(g).1]
          else u.inFlight == g && u.queue == [] && r >= Retries(m))
      && live == Some(u.inFlight)
  {
    AfterRound(s, false, false, m);
    var x := RoundOver(s, false, false, m);
    if Tries(s, m) > 1 {
      OpensFront(x, m);
    } else {
      ConvictsWhole(x, m);
    }
  }

  lemma CleanRemembered(t: Hunt, s: Hunt, masks: seq<seq<int>>, answers: seq<bool>, m: int)
    requires Remembers(t, masks, answers, m) && t.stage == Probe && SecondHalf(t) && t.guilty == []
    requires AtGroup(s, m) && s == Shelved(t, t.noReproduce) && |t.parent| >= 2
    requires Record(t, false, m) == RoundOver(s, false, false, m)
    requires Ready(NextLiveSet(Record(t, false, m)).0, m)
    ensures var (u, live) := NextLiveSet(Record(t, false, m));
      live.Some? && Remembers(u, masks + [live.value], answers + [false], m)
  {
    var g := t.parent;
    var mask := if Tries(s, m) > 1 then Split(g).0 else g;
    CleanNext(s, m);
    var n := |answers|;
    RoundsStay(g, masks, answers, n - 1, t.noReproduce, mask, false);
    assert CleanRound(g, masks + [mask], answers + [false], n - 1);
    OneMoreRound(g, masks + [mask], answers + [false], n - 1, t.noReproduce);
    GroupAtFront(s, m);
  }

  lemma StillRemembers(t: Hunt, masks: seq<seq<int>>, answers: seq<bool>, a: bool, m: int)
    requires Remembers(t, masks, answers, m)
    ensures var (u, live) := NextLiveSet(Record(t, a, m));
      live.Some? ==> Remembers(u, masks + [live.value], answers + [a], m)
  {
    if t.stage == Lead {
      AnsweredReady(t, a, m);
      if !a {
        RemembersNothing(Record(t, a, m), masks, answers + [a], m);
      }
    } else if AskingWhole(t) {
      WholeRemembered(t, masks, answers, a, m);
    } else if FirstHalf(t) {
      FirstRemembered(t, masks, answers, a, m);
    } else {
      SecondRemembered(t, masks, answers, a, m);
    }
  }

  // ----- along a play -----

  /** One more answer extends the play at its end. */
  lemma {:induction false} PlayExtends(s: Hunt, answers: seq<bool>, a: bool, m: int)
    requires |Play(s, answers, m).masks| == |answers| + 1
    ensures var p := Play(s, answers, m);
      var (u, live) := NextLiveSet(Record(p.final, a, m));
      Play(s, answers + [a], m) == Played(u, p.masks + if live.Some? then [live.value] else [])
    decreases |answers|
  {
    var (t, live) := NextLiveSet(s);
    PlayUnfolds(s, answers + [a], m);
    if answers == [] {
      assert ([] + [a])[1..] == [];
    } else {
      PlayUnfolds(s, answers, m);
      assert (answers + [a])[1..] == answers[1..] + [a];
      var u := Record(t, answers[0], m);
      PlayExtends(u, answers[1..], a, m);
      assert [live.value] + Play(u, answers[1..], m).masks == Play(s, answers, m).masks;
    }
  }

  lemma PlayUnfolds(s: Hunt, answers: seq<bool>, m: int)
    requires answers != [] && NextLiveSet(s).1.Some?
    ensures var (t, live) := NextLiveSet(s);
      var p := Play(Record(t, answers[0], m), answers[1..], m);
      Play(s, answers, m) == Played(p.final, [live.value] + p.masks)
  {
  }

  lemma {:induction false} PlayRemembers(b: Hunt, answers: seq<bool>, m: int)
    requires Ready(b, m) && b.noReproduce == 0 && b.launchesDone == 0 && b.queue == [] && b.inFlight == []
    requires |Play(b, answers, m).masks| == |answers| + 1
    ensures Remembers(Play(b, answers, m).final, Play(b, answers, m).masks, answers, m)
    decreases |answers|
  {
    if answers == [] {
      RemembersNothing(b, [], [], m);
    } else {
      var n := |answers| - 1;
      assert answers == answers[..n] + [answers[n]];
      PlayShorter(b, answers[..n], answers[n], m);
      PlayRemembers(b, answers[..n], m);
      PlayExtends(b, answers[..n], answers[n], m);
      var p := Play(b, answers[..n], m);
      StillRemembers(p.final, p.masks, answers[..n], answers[n], m);
    }
  }

  /** A play not over after an answer was not over before it. */
  lemma {:induction false} PlayShorter(s: Hunt, answers: seq<bool>, a: bool, m: int)
    requires |Play(s, answers + [a], m).masks| == |answers| + 2
    ensures |Play(s, answers, m).masks| == |answers| + 1
    decreases |answers|
  {
    if answers != [] {
      assert (answers + [a])[1..] == answers[1..] + [a];
      PlayShorter(Record(NextLiveSet(s).0, answers[0], m), answers[1..], a, m);
    }
  }

  lemma {:induction false} OpenPlayIsFull(s: Hunt, answers: seq<bool>, m: int)
    requires Ready(s, m)
    ensures Inv(Play(s, answers, m).final)
    ensures !Terminal(Play(s, answers, m).final) ==> |Play(s, answers, m).masks| == |answers| + 1
    decreases |answers|
  {
    DriveStep(s, r => false, m);
    NextAsksUnlessOver(s);
    var t := NextLiveSet(s).0;
    if t.inFlight != [] && answers != [] {
      AnsweredReady(t, answers[0], m);
      OpenPlayIsFull(Record(t, answers[0], m), answers[1..], m);
    }
  }

  lemma RememberedWhole(t: Hunt, masks: seq<seq<int>>, answers: seq<bool>, m: int)
    requires Remembers(t, masks, answers, m) && t.parent == t.inFlight
    ensures CleanRounds(t.parent, masks, answers, |answers|, Retries(m))
  {
    if Halving(t) {
      SplitFacts(t.parent);
    }
    assert AskingWhole(t);
    FewerRounds(t.parent, masks, answers, |answers|, t.noReproduce, Retries(m));
  }

  lemma FewerRounds(g: seq<int>, masks: seq<seq<int>>, answers: seq<bool>, end: int, rounds: nat, fewer: nat)
    requires CleanRounds(g, masks, answers, end, rounds) && fewer <= rounds
    ensures CleanRounds(g, masks, answers, end, fewer)
  {
  }

  lemma WholePlayed(b: Hunt, answers: seq<bool>, m: int)
    requires Ready(b, m) && b.noReproduce == 0 && b.launchesDone == 0 && b.queue == [] && b.inFlight == []
    requires var t := Play(b, answers, m).final; t.parent == t.inFlight != []
    ensures var p := Play(b, answers, m);
      CleanRounds(p.final.parent, p.masks, answers, |answers|, Retries(m))
  {
    OpenPlayIsFull(b, answers, m);
    PlayRemembers(b, answers, m);
    var p := Play(b, answers, m);
    RememberedWhole(p.final, p.masks, answers, m);
  }

  /** In every run under a fixed retry limit `m`: when the mask to answer is the whole
      group at hand, the `max(m, 1)` rounds before it each asked both halves of that
      group, and nothing failed in any of them. */
  lemma WholeOnlyAfterRounds(candidates: seq<int>, loaded: seq<int>, observed: real, es: seq<Event>, m: int,
                             check: Json -> bool)
    requires Begin(candidates, loaded, observed).Some?
    requires Legal(Begin(candidates, loaded, observed).value, es, check) && LimitIs(es, m)
    requires var t := NextLiveSet(Run(Begin(candidates, loaded, observed).value, es, check)).0;
      t.parent == t.inFlight != []
    ensures var b := Begin(candidates, loaded, observed).value;
      var t := NextLiveSet(Run(b, es, check)).0;
      CleanRounds(t.parent, Asked(b, es, check), AnswersOf(es), |AnswersOf(es)|, Retries(m))
  {
    var b := Begin(candidates, loaded, observed).value;
    BeginIsGood(candidates, loaded, observed, check);
    BeginReady(candidates, loaded, observed, m);
    assert Search(b) == b;
    RunIsPlay(b, es, m, check);
    WholePlayed(b, AnswersOf(es), m);
  }
}
