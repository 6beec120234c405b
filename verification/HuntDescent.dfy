/** The hunt as one would tell it: take a group, ask its two halves until something
    fails or patience is spent, follow what failed, larger half first, and ask the whole
    group when neither half ever fails. The worklist machine asks exactly these masks. */
module HuntDescent {
  import opened Wrappers
  import opened CoreSets
  import opened Json
  import opened HuntModel
  import opened HuntInvariant
  import opened HuntRuns
  import opened HuntOracle

  // ----- the recursive hunt -----

  /** How the search of a group ends: no answer left, everything in it settled, or the
      whole hunt over because the group never failed again. */
  datatype Ending = Paused | Settled | Cleared

  datatype Report = Report(masks: seq<seq<int>>, convicted: set<int>, rest: seq<bool>, ending: Ending)

  function After(masks: seq<seq<int>>, r: Report): Report {
    r.(masks := masks + r.masks)
  }

  function AskGroup(g: seq<int>, answers: seq<bool>): (r: Report)
    ensures |r.rest| <= |answers|
  {
    if answers == [] then Report([g], {}, [], Paused)
    else if answers[0] then Report([g], ToSet(g), answers[1..], Settled)
    else Report([g], {}, answers[1..], Cleared)
  }

  /** Search a group with `tries` rounds of patience left out of `patience`. */
  function Descend(g: seq<int>, answers: seq<bool>, tries: nat, patience: nat): (r: Report)
    ensures |r.rest| <= |answers|
    decreases |answers|, 0
  {
    var (left, right) := Split(g);
    if |g| == 1 then Report([], ToSet(g), answers, Settled)
    else if |answers| < 2 then Report([left, right][..|answers| + 1], {}, [], Paused)
    else if answers[0] || answers[1] then
      After([left, right], Follow(g, answers[0], answers[1], answers[2..], patience))
    else if tries > 1 then After([left, right], Descend(g, answers[2..], tries - 1, patience))
    else After([left, right], AskGroup(g, answers[2..]))
  }

  /** Search the halves that failed, one after the other. */
  function Follow(g: seq<int>, first: bool, second: bool, answers: seq<bool>, patience: nat): (r: Report)
    ensures |r.rest| <= |answers|
    decreases |answers|, 1
  {
    var (left, right) := Split(g);
    var l := if first then Descend(left, answers, patience, patience) else Report([], {}, answers, Settled);
    if l.ending != Settled || !second then l
    else
      var r := Descend(right, l.rest, patience, patience);
      Report(l.masks + r.masks, l.convicted + r.convicted, r.rest, r.ending)
  }

  /** A lead is asked alone first; only its reproduction spares the descent. */
  function Tell(candidates: seq<int>, lead: seq<int>, answers: seq<bool>, patience: nat): Report {
    if lead == [] then Descend(candidates, answers, patience, patience)
    else if answers == [] then Report([lead], {}, [], Paused)
    else if answers[0] then Report([lead], ToSet(lead), answers[1..], Settled)
    else After([lead], Descend(candidates, answers[1..], patience, patience))
  }

  // ----- the machine, fed the same answers -----

  datatype Played = Played(final: Hunt, masks: seq<seq<int>>)

  /** Ask and answer until the hunt or the answers end; the last mask may be unanswered. */
  function Play(s: Hunt, answers: seq<bool>, m: int): Played
    decreases |answers|
  {
    var (t, live) := NextLiveSet(s);
    if live.None? then Played(t, [])
    else if answers == [] then Played(t, [live.value])
    else
      var p := Play(Record(t, answers[0], m), answers[1..], m);
      Played(p.final, [live.value] + p.masks)
  }

  /** The worklist with a group at its front that is about to be split. */
  ghost predicate AtGroup(s: Hunt, m: int) {
    && Worklist(s) && s.pending != [] && s.noReproduce < Retries(m) && s.launchesDone == 0
    && (s.noReproduce > 0 ==> |s.pending[0]| >= 2)
  }

  function Tries(s: Hunt, m: int): int {
    Retries(m) - s.noReproduce
  }

  /** The machine once the front group is settled, with these cores convicted in it. */
  ghost function Past(s: Hunt, convicted: set<int>): Hunt
    requires s.pending != []
  {
    s.(pending := s.pending[1..], found := ListSet(ToSet(s.found) + convicted), noReproduce := 0)
  }

  // ----- one round -----

  /** The halves found guilty in a round. */
  function Guilty(g: seq<int>, first: bool, second: bool): seq<seq<int>> {
    (if first then [Split(g).0] else []) + (if second then [Split(g).1] else [])
  }

  /** What a round leaves behind. */
  function RoundOver(s: Hunt, first: bool, second: bool, m: int): Hunt
    requires s.pending != []
  {
    var g := s.pending[0];
    if first || second then s.(pending := Guilty(g, first, second) + s.pending[1..], noReproduce := 0)
    else if Tries(s, m) > 1 then s.(noReproduce := s.noReproduce + 1)
    else s.(pending := s.pending[1..], parent := g, level := SplitLevel(|s.candidates|, |g|), queue := [g],
            noReproduce := s.noReproduce + 1)
  }

  /** The front group opened, its larger half in flight. */
  function Opened(s: Hunt): Hunt
    requires s.pending != []
  {
    var (left, right) := Split(s.pending[0]);
    s.(pending := s.pending[1..], parent := s.pending[0], level := SplitLevel(|s.candidates|, |s.pending[0]|),
       queue := [right], inFlight := left)
  }

  /** The larger half answered, the other one in flight. */
  function Turned(s: Hunt, first: bool): Hunt
    requires s.pending != []
  {
    var (left, right) := Split(s.pending[0]);
    var t := Opened(s).(queue := [], inFlight := right);
    if first then t.(guilty := [left], noReproduce := 0) else t
  }

  lemma GroupAtFront(s: Hunt, m: int)
    requires AtGroup(s, m) && |s.pending[0]| >= 2
    ensures var g := s.pending[0];
      && Strict(g) && Split(g).0 != [] && Split(g).1 != []
      && Split(g).0 != g && Split(g).1 != g && Split(g).0 != Split(g).1
  {
    PopFront(s.pending, ToSet(s.candidates));
    SplitFacts(s.pending[0]);
    assert Split(s.pending[0]).0[0] in ToSet(Split(s.pending[0]).0);
  }

  lemma OpensFront(s: Hunt, m: int)
    requires AtGroup(s, m) && |s.pending[0]| >= 2
    ensures NextLiveSet(s) == (Opened(s), Some(Split(s.pending[0]).0))
  {
  }

  lemma TurnsOver(s: Hunt, first: bool, m: int)
    requires AtGroup(s, m) && |s.pending[0]| >= 2
    ensures NextLiveSet(Record(Opened(s), first, m)) == (Turned(s, first), Some(Split(s.pending[0]).1))
  {
    GroupAtFront(s, m);
    var t := Record(Opened(s), first, m);
    assert [Split(s.pending[0]).1][1..] == [];
    assert t.queue == [Split(s.pending[0]).1] && [] + [Split(s.pending[0]).0] == [Split(s.pending[0]).0];
  }

  lemma RoundEnds(s: Hunt, first: bool, second: bool, m: int)
    requires AtGroup(s, m) && |s.pending[0]| >= 2
    ensures Record(Turned(s, first), second, m) == RoundOver(s, first, second, m)
  {
    GroupAtFront(s, m);
    var g := s.pending[0];
    var t := Turned(s, first).(launchesDone := 0, inFlight := []);
    var u := if second then t.(guilty := t.guilty + [Split(g).1], noReproduce := 0) else t;
    assert Record(Turned(s, first), second, m) == CloseSplit(u, m);
    assert u.guilty == Guilty(g, first, second);
    assert [g] + s.pending[1..] == s.pending;
  }

  /** From the larger half's answer on. */
  lemma PlaysSecond(s: Hunt, first: bool, answers: seq<bool>, m: int)
    requires AtGroup(s, m) && |s.pending[0]| >= 2
    ensures var right := Split(s.pending[0]).1;
      var t := Record(Opened(s), first, m);
      if answers == [] then Play(t, answers, m) == Played(Turned(s, first), [right])
      else
        var p := Play(RoundOver(s, first, answers[0], m), answers[1..], m);
        Play(t, answers, m) == Played(p.final, [right] + p.masks)
  {
    TurnsOver(s, first, m);
    if answers != [] {
      RoundEnds(s, first, answers[0], m);
    }
  }

  lemma PlaysFirst(s: Hunt, answers: seq<bool>, m: int)
    requires AtGroup(s, m) && |s.pending[0]| >= 2
    ensures var left := Split(s.pending[0]).0;
      if answers == [] then Play(s, answers, m) == Played(Opened(s), [left])
      else
        var p := Play(Record(Opened(s), answers[0], m), answers[1..], m);
        Play(s, answers, m) == Played(p.final, [left] + p.masks)
  {
    OpensFront(s, m);
  }

  lemma OneThenMore(a: seq<int>, b: seq<int>, rest: seq<seq<int>>)
    ensures [a] + ([b] + rest) == [a, b] + rest && [a] + [b] == [a, b]
  {
  }

  /** Two answers take the machine through one round. */
  lemma PlaysRound(s: Hunt, answers: seq<bool>, m: int)
    requires AtGroup(s, m) && |s.pending[0]| >= 2 && |answers| >= 2
    ensures var p := Play(RoundOver(s, answers[0], answers[1], m), answers[2..], m);
      Play(s, answers, m) == Played(p.final, [Split(s.pending[0]).0, Split(s.pending[0]).1] + p.masks)
  {
    PlaysFirst(s, answers, m);
    PlaysSecond(s, answers[0], answers[1..], m);
    assert answers[1..][1..] == answers[2..];
    var p := Play(RoundOver(s, answers[0], answers[1], m), answers[2..], m);
    OneThenMore(Split(s.pending[0]).0, Split(s.pending[0]).1, p.masks);
  }

  /** Fewer leave it within the round. */
  lemma PlaysIntoRound(s: Hunt, answers: seq<bool>, m: int)
    requires AtGroup(s, m) && |s.pending[0]| >= 2 && |answers| < 2
    ensures var (left, right) := Split(s.pending[0]);
      Play(s, answers, m) ==
        if answers == [] then Played(Opened(s), [left]) else Played(Turned(s, answers[0]), [left, right])
  {
    PlaysFirst(s, answers, m);
    if answers != [] {
      PlaysSecond(s, answers[0], answers[1..], m);
      OneThenMore(Split(s.pending[0]).0, Split(s.pending[0]).1, []);
    }
  }

  // ----- the machine tells the same story -----

  /** The machine's play of the front group is what the report says, and then goes on
      with the rest of the worklist. */
  ghost predicate Agrees(s: Hunt, p: Played, r: Report, m: int)
    requires s.pending != []
  {
    match r.ending
    case Paused => p.masks == r.masks != [] && !Terminal(p.final) && p.final.inFlight == r.masks[|r.masks| - 1]
    case Settled =>
      var rest := Play(Past(s, r.convicted), r.rest, m);
      p == Played(rest.final, r.masks + rest.masks)
    case Cleared => p.masks == r.masks && Closed(p.final, ToSet(s.found) + r.convicted)
  }

  /** The hunt is over with exactly these cores convicted. */
  ghost predicate Closed(s: Hunt, convicted: set<int>) {
    && s.found == ListSet(convicted)
    && s.stage == (if convicted != {} then Culprit else Exhausted)
  }

  lemma StrictIsListSet(s: seq<int>)
    requires Strict(s)
    ensures s == ListSet(ToSet(s))
  {
    StrictListingIsUnique(s, ListSet(ToSet(s)));
  }

  lemma SettlesSingle(s: Hunt, answers: seq<bool>, m: int)
    requires AtGroup(s, m) && |s.pending[0]| == 1
    ensures Play(s, answers, m) == Play(Past(s, ToSet(s.pending[0])), answers, m)
  {
    SortedUnion(s.found, s.pending[0]);
    StrictIsListSet(Sorted(s.found + s.pending[0]));
    var t := Past(s, ToSet(s.pending[0]));
    assert t == s.(found := Sorted(s.found + s.pending[0]), pending := s.pending[1..]);
    assert NextLiveSet(s) == NextLiveSet(t);
  }

  /** A group being asked as a whole. */
  ghost predicate AtWhole(s: Hunt) {
    && Sets(s) && s.stage == Probe && AskingWhole(s) && s.inFlight == [] && s.launchesDone == 0
  }

  /** The worklist state in which the group asked as a whole was still at its front. */
  ghost function Before(s: Hunt): Hunt {
    s.(pending := [s.parent] + s.pending, parent := [], level := 0, queue := [], noReproduce := 0)
  }

  lemma ConvictsWhole(s: Hunt, m: int)
    requires AtWhole(s)
    ensures NextLiveSet(s) == (s.(queue := [], inFlight := s.parent), Some(s.parent))
    ensures forall rest: seq<bool> ::
              Play(Record(s.(queue := [], inFlight := s.parent), true, m), rest, m) ==
              Play(Past(Before(s), ToSet(s.parent)), rest, m)
  {
    SortedUnion(s.found, s.parent);
    StrictIsListSet(Sorted(s.found + s.parent));
    assert [s.parent][1..] == [];
    var t := Record(s.(queue := [], inFlight := s.parent), true, m);
    var u := Past(Before(s), ToSet(s.parent));
    assert ([s.parent] + s.pending)[1..] == s.pending;
    if s.pending == [] {
      ToSetEmpty(s.parent);
      ToSetEmpty(u.found);
      assert t == u.(stage := Culprit);
      assert NextLiveSet(u) == (t, None) && NextLiveSet(t) == (t, None);
    } else {
      assert t == u;
    }
  }

  lemma AsksWhole(s: Hunt, answers: seq<bool>, m: int)
    requires AtWhole(s)
    ensures Agrees(Before(s), Play(s, answers, m), AskGroup(s.parent, answers), m)
  {
    ConvictsWhole(s, m);
    var t := s.(queue := [], inFlight := s.parent);
    if answers != [] {
      if answers[0] {
        var p := Play(Record(t, true, m), answers[1..], m);
        assert p == Play(Past(Before(s), ToSet(s.parent)), answers[1..], m);
      } else {
        StrictIsListSet(s.found);
        ToSetEmpty(s.found);
        var u := Record(t, false, m);
        assert Terminal(u) && NextLiveSet(u) == (u, None);
        assert [s.parent] + [] == [s.parent];
        assert ToSet(s.found) + {} == ToSet(s.found);
      }
    }
  }

  // ----- the induction -----

  lemma {:induction false} ConvictsInside(g: seq<int>, answers: seq<bool>, tries: nat, patience: nat)
    requires g != []
    ensures Descend(g, answers, tries, patience).convicted <= ToSet(g)
    decreases |answers|, 0
  {
    if |g| >= 2 && |answers| >= 2 {
      if answers[0] || answers[1] {
        FollowsInside(g, answers[0], answers[1], answers[2..], patience);
      } else if tries > 1 {
        ConvictsInside(g, answers[2..], tries - 1, patience);
      }
    }
  }

  lemma {:induction false} FollowsInside(g: seq<int>, first: bool, second: bool, answers: seq<bool>, patience: nat)
    requires |g| >= 2
    ensures Follow(g, first, second, answers, patience).convicted <= ToSet(g)
    decreases |answers|, 1
  {
    var (left, right) := Split(g);
    assert left + right == g;
    ToSetConcat(left, right);
    var rest := if first then Descend(left, answers, patience, patience).rest else answers;
    if first {
      ConvictsInside(left, answers, patience, patience);
    }
    ConvictsInside(right, rest, patience, patience);
  }

  lemma AfterRound(s: Hunt, first: bool, second: bool, m: int)
    requires AtGroup(s, m) && |s.pending[0]| >= 2
    ensures var u := RoundOver(s, first, second, m);
      if first || second then AtGroup(u, m) && Tries(u, m) == Retries(m)
      else if Tries(s, m) > 1 then AtGroup(u, m)
      else AtWhole(u) && Before(u) == s.(noReproduce := 0)
  {
    if first || second {
      AfterGuiltyRound(s, first, second, m);
    } else {
      var g := s.pending[0];
      GroupAtFront(s, m);
      PopFront(s.pending, ToSet(s.candidates));
      assert [g] + s.pending[1..] == s.pending;
    }
  }

  lemma AfterGuiltyRound(s: Hunt, first: bool, second: bool, m: int)
    requires AtGroup(s, m) && |s.pending[0]| >= 2 && (first || second)
    ensures var u := RoundOver(s, first, second, m);
      AtGroup(u, m) && Tries(u, m) == Retries(m)
  {
    var g := s.pending[0];
    GroupAtFront(s, m);
    PopFront(s.pending, ToSet(s.candidates));
    GuiltyGroups(g, Guilty(g, first, second), ToSet(s.candidates));
    PushFront(Guilty(g, first, second), s.pending[1..], ToSet(s.candidates));
  }

  lemma PastIsAtGroup(s: Hunt, convicted: set<int>, m: int)
    requires AtGroup(s, m) && convicted <= ToSet(s.pending[0]) && |s.pending| >= 2
    ensures AtGroup(Past(s, convicted), m) && Tries(Past(s, convicted), m) == Retries(m)
  {
    PopFront(s.pending, ToSet(s.candidates));
  }

  lemma PastTwice(s: Hunt, u: Hunt, first: set<int>, second: set<int>)
    requires |u.pending| >= 2 && s.pending != [] && u.pending[2..] == s.pending[1..]
    requires u == s.(pending := u.pending, noReproduce := u.noReproduce)
    ensures Past(Past(u, first), second) == Past(s, first + second)
  {
    assert u.pending[1..][1..] == u.pending[2..];
    assert ToSet(s.found) + first + second == ToSet(s.found) + (first + second);
  }

  /** What is said once the round is over, said from its start. */
  lemma AgreesAfter(s: Hunt, u: Hunt, p: Played, r: Report, masks: seq<seq<int>>, m: int)
    requires s.pending != [] && u.pending != [] && u.pending[1..] == s.pending[1..]
    requires u == s.(pending := u.pending, noReproduce := u.noReproduce) && Agrees(u, p, r, m)
    ensures Agrees(s, Played(p.final, masks + p.masks), After(masks, r), m)
  {
    if r.ending == Settled {
      assert Past(u, r.convicted) == Past(s, r.convicted);
      var rest := Play(Past(s, r.convicted), r.rest, m);
      assert masks + (r.masks + rest.masks) == masks + r.masks + rest.masks;
    }
  }

  lemma {:induction false} DescentAgrees(s: Hunt, answers: seq<bool>, m: int)
    requires AtGroup(s, m)
    ensures Agrees(s, Play(s, answers, m), Descend(s.pending[0], answers, Tries(s, m), Retries(m)), m)
    decreases |answers|, 1
  {
    PopFront(s.pending, ToSet(s.candidates));
    if |s.pending[0]| == 1 {
      SingleAgrees(s, answers, m);
    } else if |answers| < 2 {
      PauseAgrees(s, answers, m);
    } else {
      PlaysRound(s, answers, m);
      RoundAgrees(s, answers, m);
    }
  }

  lemma SingleAgrees(s: Hunt, answers: seq<bool>, m: int)
    requires AtGroup(s, m) && |s.pending[0]| == 1
    ensures Agrees(s, Play(s, answers, m), Report([], ToSet(s.pending[0]), answers, Settled), m)
  {
    SettlesSingle(s, answers, m);
    var p := Play(s, answers, m);
    assert [] + p.masks == p.masks;
  }

  lemma PauseAgrees(s: Hunt, answers: seq<bool>, m: int)
    requires AtGroup(s, m) && |s.pending[0]| >= 2 && |answers| < 2
    ensures var (left, right) := Split(s.pending[0]);
      Agrees(s, Play(s, answers, m), Report([left, right][..|answers| + 1], {}, [], Paused), m)
  {
    PlaysIntoRound(s, answers, m);
    var (left, right) := Split(s.pending[0]);
    assert [left, right][..1] == [left] && [left, right][..2] == [left, right];
  }

  lemma {:induction false} RoundAgrees(s: Hunt, answers: seq<bool>, m: int)
    requires AtGroup(s, m) && |s.pending[0]| >= 2 && |answers| >= 2
    ensures var p := Play(RoundOver(s, answers[0], answers[1], m), answers[2..], m);
      Agrees(s, Played(p.final, [Split(s.pending[0]).0, Split(s.pending[0]).1] + p.masks),
             Descend(s.pending[0], answers, Tries(s, m), Retries(m)), m)
    decreases |answers|, 0
  {
    var g := s.pending[0];
    var masks := [Split(g).0, Split(g).1];
    var u := RoundOver(s, answers[0], answers[1], m);
    var p := Play(u, answers[2..], m);
    AfterRound(s, answers[0], answers[1], m);
    if answers[0] || answers[1] {
      FollowAgrees(s, answers[0], answers[1], answers[2..], m);
      AgreesAfter(s, s, p, Follow(g, answers[0], answers[1], answers[2..], Retries(m)), masks, m);
    } else if Tries(s, m) > 1 {
      DescentAgrees(u, answers[2..], m);
      AgreesAfter(s, u, p, Descend(g, answers[2..], Tries(u, m), Retries(m)), masks, m);
    } else {
      AsksWhole(u, answers[2..], m);
      AgreesAfter(s, Before(u), p, AskGroup(g, answers[2..]), masks, m);
    }
  }

  lemma {:induction false} FollowAgrees(s: Hunt, first: bool, second: bool, answers: seq<bool>, m: int)
    requires AtGroup(s, m) && |s.pending[0]| >= 2 && (first || second)
    ensures Agrees(s, Play(RoundOver(s, first, second, m), answers, m),
                   Follow(s.pending[0], first, second, answers, Retries(m)), m)
    decreases |answers|, 3
  {
    var g := s.pending[0];
    var u := RoundOver(s, first, second, m);
    AfterRound(s, first, second, m);
    DescentAgrees(u, answers, m);
    var l := Descend(u.pending[0], answers, Retries(m), Retries(m));
    if first && second {
      if l.ending == Settled {
        BothHalves(s, answers, m);
      }
    } else {
      assert u.pending[1..] == s.pending[1..];
      var p := Play(u, answers, m);
      AgreesAfter(s, u, p, l, [], m);
      assert [] + l.masks == l.masks && [] + p.masks == p.masks && {} + l.convicted == l.convicted;
    }
  }

  lemma {:induction false} BothHalves(s: Hunt, answers: seq<bool>, m: int)
    requires AtGroup(s, m) && |s.pending[0]| >= 2
    requires Descend(Split(s.pending[0]).0, answers, Retries(m), Retries(m)).ending == Settled
    requires var u := RoundOver(s, true, true, m);
      && AtGroup(u, m)
      && Agrees(u, Play(u, answers, m), Descend(u.pending[0], answers, Retries(m), Retries(m)), m)
    ensures Agrees(s, Play(RoundOver(s, true, true, m), answers, m),
                   Follow(s.pending[0], true, true, answers, Retries(m)), m)
    decreases |answers|, 2
  {
    var (left, right) := Split(s.pending[0]);
    var u := RoundOver(s, true, true, m);
    assert u.pending == [left, right] + s.pending[1..];
    var l := Descend(left, answers, Retries(m), Retries(m));
    ConvictsInside(left, answers, Retries(m), Retries(m));
    PastIsAtGroup(u, l.convicted, m);
    var v := Past(u, l.convicted);
    DescentAgrees(v, l.rest, m);
    var r := Descend(right, l.rest, Retries(m), Retries(m));
    Composes(s, u, Play(v, l.rest, m), l, r, m);
  }

  /** What is said of the second half, said of the group. */
  lemma Composes(s: Hunt, u: Hunt, p: Played, l: Report, r: Report, m: int)
    requires |u.pending| >= 2 && s.pending != [] && u.pending[2..] == s.pending[1..]
    requires u == s.(pending := u.pending, noReproduce := u.noReproduce)
    requires Agrees(Past(u, l.convicted), p, r, m)
    ensures Agrees(s, Played(p.final, l.masks + p.masks),
                   Report(l.masks + r.masks, l.convicted + r.convicted, r.rest, r.ending), m)
  {
    PastTwice(s, u, l.convicted, r.convicted);
    assert ToSet(s.found) + l.convicted + r.convicted == ToSet(s.found) + (l.convicted + r.convicted);
    if r.ending == Settled {
      var rest := Play(Past(s, l.convicted + r.convicted), r.rest, m);
      assert l.masks + (r.masks + rest.masks) == l.masks + r.masks + rest.masks;
    }
  }

  // ----- the theorem -----

  lemma {:induction false} SettledConvicts(g: seq<int>, answers: seq<bool>, tries: nat, patience: nat)
    requires g != [] && Descend(g, answers, tries, patience).ending == Settled
    ensures Descend(g, answers, tries, patience).convicted != {}
    decreases |answers|
  {
    assert g[0] in ToSet(g);
    if |g| >= 2 && |answers| >= 2 {
      var (left, right) := Split(g);
      if answers[0] {
        SettledConvicts(left, answers[2..], patience, patience);
      } else if answers[1] {
        SettledConvicts(right, answers[2..], patience, patience);
      } else if tries > 1 {
        SettledConvicts(g, answers[2..], tries - 1, patience);
      }
    }
  }

  /** What the machine's play shows of a report on the whole hunt. */
  ghost predicate Tells(p: Played, r: Report) {
    && p.masks == r.masks
    && (if r.ending == Paused then r.masks != [] && !Terminal(p.final) && p.final.inFlight == r.masks[|r.masks| - 1]
        else Closed(p.final, r.convicted))
  }

  lemma EndsWhenSettled(s: Hunt, convicted: set<int>, answers: seq<bool>, m: int)
    requires Worklist(s) && s.pending == [] && s.found == ListSet(convicted) && convicted != {}
    ensures Play(s, answers, m) == Played(s.(stage := Culprit), []) && Closed(s.(stage := Culprit), convicted)
  {
    ToSetEmpty(s.found);
    assert NextLiveSet(s) == (s.(stage := Culprit), None);
  }

  lemma WholeDescent(s: Hunt, answers: seq<bool>, m: int)
    requires AtGroup(s, m) && s.pending == [s.candidates] && s.found == [] && s.noReproduce == 0
    ensures Tells(Play(s, answers, m), Descend(s.candidates, answers, Retries(m), Retries(m)))
  {
    DescentAgrees(s, answers, m);
    WholeAgrees(s, Play(s, answers, m), Descend(s.candidates, answers, Retries(m), Retries(m)), answers, m);
  }

  lemma WholeAgrees(s: Hunt, p: Played, r: Report, answers: seq<bool>, m: int)
    requires AtGroup(s, m) && s.pending == [s.candidates] && s.found == []
    requires r == Descend(s.candidates, answers, Retries(m), Retries(m)) && Agrees(s, p, r, m)
    ensures Tells(p, r)
  {
    assert ToSet(s.found) + r.convicted == r.convicted;
    if r.ending == Settled {
      SettledConvicts(s.candidates, answers, Retries(m), Retries(m));
      ConvictsInside(s.candidates, answers, Retries(m), Retries(m));
      var u := Past(s, r.convicted);
      assert u.pending == [];
      EndsWhenSettled(u, r.convicted, r.rest, m);
      assert r.masks + [] == r.masks;
    }
  }

  /** A hunt under a fixed retry limit, whatever the answers, truthful or not: the masks
      it asks are those of the recursive search, in the same order, it goes on exactly as
      long, and ends with the same cores convicted. */
  lemma HuntIsDescent(candidates: seq<int>, loaded: seq<int>, observed: real, answers: seq<bool>, m: int)
    requires Begin(candidates, loaded, observed).Some?
    ensures var b := Begin(candidates, loaded, observed).value;
      Tells(Play(b, answers, m), Tell(b.candidates, LeadProbe(b.candidates, b.loaded), answers, Retries(m)))
  {
    BeginReady(candidates, loaded, observed, m);
    var b := Begin(candidates, loaded, observed).value;
    var lead := LeadProbe(b.candidates, b.loaded);
    SingleGroup(b.candidates);
    if lead == [] {
      WholeDescent(b, answers, m);
    } else {
      LedDescent(b, answers, m);
    }
  }

  lemma LedDescent(b: Hunt, answers: seq<bool>, m: int)
    requires Inv(b) && Leading(b) && b.stage == Lead && b.inFlight == [] && b.launchesDone == 0
    ensures Tells(Play(b, answers, m), Tell(b.candidates, LeadProbe(b.candidates, b.loaded), answers, Retries(m)))
  {
    var lead := LeadProbe(b.candidates, b.loaded);
    LeadFacts(b.candidates, b.loaded);
    if answers != [] {
      if answers[0] {
        LeadHits(b, answers[1..], m);
        assert [lead] + [] == [lead];
      } else {
        var t := b.(stage := Probe);
        assert Record(NextLiveSet(b).0, false, m) == t;
        WholeDescent(t, answers[1..], m);
      }
    }
  }

  /** A lead that reproduces is the whole verdict. */
  lemma LeadHits(b: Hunt, answers: seq<bool>, m: int)
    requires Inv(b) && Leading(b) && b.stage == Lead && b.inFlight == []
    ensures var lead := LeadProbe(b.candidates, b.loaded);
      var t := Record(NextLiveSet(b).0, true, m);
      Play(t, answers, m) == Played(t, []) && Closed(t, ToSet(lead))
  {
    var lead := LeadProbe(b.candidates, b.loaded);
    LeadFacts(b.candidates, b.loaded);
    assert lead[0] in ToSet(lead);
    StrictIsListSet(lead);
    var t := Record(NextLiveSet(b).0, true, m);
    assert NextLiveSet(t) == (t, None);
  }

  // ----- every run -----

  function AnswersOf(es: seq<Event>): seq<bool> {
    if es == [] then [] else (if es[0].Answer? then [es[0].reproduced] else []) + AnswersOf(es[1..])
  }

  ghost predicate LimitIs(es: seq<Event>, m: int) {
    forall e :: e in es && e.Answer? ==> e.limit == m
  }

  /** The masks a run has asked: those answered, and the next one if there is one. */
  function Asked(s: Hunt, es: seq<Event>, check: Json -> bool): seq<seq<int>> {
    var live := NextLiveSet(Run(s, es, check)).1;
    Masks(s, es, check) + if live.Some? then [live.value] else []
  }

  lemma AskedStep(s: Hunt, es: seq<Event>, check: Json -> bool)
    requires es != []
    ensures Run(s, es, check) == Run(Step(s, es[0], check), es[1..], check)
    ensures Asked(s, es, check) ==
      (if es[0].Answer? then [s.inFlight] else []) + Asked(Step(s, es[0], check), es[1..], check)
    ensures AnswersOf(es) == (if es[0].Answer? then [es[0].reproduced] else []) + AnswersOf(es[1..])
  {
  }

  /** The play and the run, both to where the answers end. */
  ghost predicate SameHunt(p: Played, s: Hunt, es: seq<Event>, check: Json -> bool) {
    p == Played(Search(NextLiveSet(Run(s, es, check)).0), Asked(s, es, check))
  }

  /** Restarts, repeated questions and the caller's own steps anywhere in between. */
  lemma {:induction false} RunIsPlay(s: Hunt, es: seq<Event>, m: int, check: Json -> bool)
    requires Good(s, check) && Legal(s, es, check) && LimitIs(es, m)
    ensures SameHunt(Play(Search(s), AnswersOf(es), m), s, es, check)
    decreases |es|
  {
    if es == [] {
      NextIgnoresCaller(s);
    } else {
      StepKeepsGood(s, es[0], check);
      assert forall e :: e in es[1..] ==> e in es;
      RunIsPlay(Step(s, es[0], check), es[1..], m, check);
      RunStepsBack(s, es, m, check);
    }
  }

  lemma RunStepsBack(s: Hunt, es: seq<Event>, m: int, check: Json -> bool)
    requires Good(s, check) && es != [] && Enabled(s, es[0], check) && LimitIs(es, m)
    requires SameHunt(Play(Search(Step(s, es[0], check)), AnswersOf(es[1..]), m), Step(s, es[0], check), es[1..], check)
    ensures SameHunt(Play(Search(s), AnswersOf(es), m), s, es, check)
  {
    AskedStep(s, es, check);
    if es[0].Answer? {
      assert es[0] in es && Step(s, es[0], check) == Record(s, es[0].reproduced, m);
      AnswerPlays(s, es[0].reproduced, AnswersOf(es[1..]), m);
    } else {
      SamePlay(s, es[0], AnswersOf(es[1..]), m, check);
      assert [] + AnswersOf(es[1..]) == AnswersOf(es[1..]);
    }
  }

  lemma AnswerPlays(s: Hunt, reproduced: bool, answers: seq<bool>, m: int)
    requires Inv(s) && s.inFlight != []
    ensures var p := Play(Search(Record(s, reproduced, m)), answers, m);
      Play(Search(s), [reproduced] + answers, m) == Played(p.final, [s.inFlight] + p.masks)
  {
    RecordIgnoresCaller(s, reproduced, m);
    assert NextLiveSet(Search(s)) == (Search(s), Some(s.inFlight));
    assert ([reproduced] + answers)[1..] == answers;
  }

  lemma SamePlay(s: Hunt, e: Event, answers: seq<bool>, m: int, check: Json -> bool)
    requires Good(s, check) && Enabled(s, e, check) && !e.Answer?
    ensures Play(Search(Step(s, e, check)), answers, m) == Play(Search(s), answers, m)
  {
    SameQuestion(s, e, check);
  }

  lemma SameQuestion(s: Hunt, e: Event, check: Json -> bool)
    requires Good(s, check) && Enabled(s, e, check) && !e.Answer?
    ensures NextLiveSet(Search(Step(s, e, check))) == NextLiveSet(Search(s))
  {
    if e.Ask? {
      NextIgnoresCaller(s);
      AskingTwiceIsAskingOnce(s);
      NextIgnoresCaller(NextLiveSet(s).0);
    } else if e.Restart? {
      RestartChangesNothing(s, check);
    } else {
      assert Search(Step(s, e, check)) == Search(s);
    }
  }

  /** Every run of a hunt asks the masks of the recursive search. */
  lemma RunsAreDescents(candidates: seq<int>, loaded: seq<int>, observed: real, es: seq<Event>, m: int,
                        check: Json -> bool)
    requires Begin(candidates, loaded, observed).Some?
    requires Legal(Begin(candidates, loaded, observed).value, es, check) && LimitIs(es, m)
    ensures var b := Begin(candidates, loaded, observed).value;
      Tells(Played(NextLiveSet(Run(b, es, check)).0, Asked(b, es, check)),
            Tell(b.candidates, LeadProbe(b.candidates, b.loaded), AnswersOf(es), Retries(m)))
  {
    var b := Begin(candidates, loaded, observed).value;
    BeginIsGood(candidates, loaded, observed, check);
    RunIsPlay(b, es, m, check);
    HuntIsDescent(candidates, loaded, observed, AnswersOf(es), m);
    assert Search(b) == b;
  }
}
