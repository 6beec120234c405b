/** The mutable hunt the tuner holds: its two operations change the fields in place
    and are exactly the ones on values. */
module HuntState {
  import opened Wrappers
  import opened CoreSets
  import opened Json
  import opened HuntModel
  import opened HuntInvariant

  class HuntState {
    var stage: Stage
    var candidates: seq<int>
    var pending: seq<seq<int>>
    var queue: seq<seq<int>>
    var inFlight: seq<int>
    var parent: seq<int>
    var guiltyHalves: seq<seq<int>>
    var level: int
    var found: seq<int>
    var noReproduce: int
    var launchesDone: int
    var loaded: seq<int>
    var observedFailureTime: real
    var armed: bool
    var vector: map<int, int>
    var workload: Json

    function Value(): Hunt
      reads this
    {
      Hunt(stage, candidates, pending, queue, inFlight, parent, guiltyHalves, level, found, noReproduce,
           launchesDone, loaded, observedFailureTime, armed, vector, workload)
    }

    constructor (h: Hunt)
      ensures Value() == h
    {
      stage, candidates, pending, queue := h.stage, h.candidates, h.pending, h.queue;
      inFlight, parent, guiltyHalves, level := h.inFlight, h.parent, h.guilty, h.level;
      found, noReproduce, launchesDone, loaded := h.found, h.noReproduce, h.launchesDone, h.loaded;
      observedFailureTime, armed, vector, workload := h.observed, h.armed, h.vector, h.workload;
    }

    /** Move the lone cores at the front of the worklist into `found`. */
    method AbsorbSingles()
      modifies this`pending, this`found
      ensures Value() == HuntModel.AbsorbSingles(old(Value()))
    {
      ghost var before := Value();
      while pending != [] && |pending[0]| == 1
        invariant Value() == before.(pending := pending, found := found)
        invariant HuntModel.AbsorbSingles(Value()) == HuntModel.AbsorbSingles(before)
        decreases |pending|
      {
        found, pending := Sorted(found + pending[0]), pending[1..];
      }
    }

    /** Nothing is left to ask: the verdict is what was convicted so far. */
    method Settle()
      modifies this`stage
      ensures Value() == old(Value()).(stage := if found != [] then Culprit else Exhausted)
    {
      stage := if found != [] then Culprit else Exhausted;
    }

    method Dequeue() returns (probe: seq<int>)
      requires queue != []
      modifies this`inFlight, this`queue
      ensures Value() == old(Value()).(inFlight := probe, queue := old(queue)[1..]) && probe == old(queue)[0]
    {
      probe := queue[0];
      inFlight, queue := probe, queue[1..];
    }

    method EnterSplit(target: seq<int>)
      modifies this`parent, this`guiltyHalves, this`level
      ensures Value() == old(Value()).(parent := target, guilty := [], level := SplitLevel(|candidates|, |target|))
    {
      parent := target;
      guiltyHalves := [];
      level := SplitLevel(|candidates|, |target|);
    }

    method LeaveSplit()
      modifies this`parent, this`level
      ensures Value() == old(Value()).(parent := [], level := 0)
    {
      parent, level := [], 0;
    }

    /** Split the front group of the worklist, or end the hunt. */
    method OpenGroup() returns (live: Option<seq<int>>)
      modifies this
      ensures (Value(), live) == HuntModel.OpenGroup(old(Value()))
    {
      if pending == [] {
        Settle();
        return None;
      }
      var target := pending[0];
      pending := pending[1..];
      var (left, right) := Split(target);
      EnterSplit(target);
      queue := [left, right];
      var probe := Dequeue();
      assert [left, right][1..] == [right];
      return Some(probe);
    }

    /** Ask: the fields move on only when there is no mask to repeat. */
    method NextLiveSet() returns (live: Option<seq<int>>)
      modifies this
      ensures (Value(), live) == HuntModel.NextLiveSet(old(Value()))
    {
      if stage == Culprit || stage == Exhausted {
        return None;
      }
      if inFlight != [] {
        return Some(inFlight);
      }
      if stage == Lead {
        inFlight := LeadProbe(candidates, loaded);
        return Some(inFlight);
      }
      if queue != [] {
        var probe := Dequeue();
        return Some(probe);
      }
      AbsorbSingles();
      live := OpenGroup();
    }

    method TakeAnswered() returns (probe: seq<int>)
      modifies this`launchesDone, this`inFlight
      ensures Value() == old(Value()).(launchesDone := 0, inFlight := []) && probe == old(inFlight)
    {
      probe := inFlight;
      launchesDone, inFlight := 0, [];
    }

    method EndLead(probe: seq<int>, reproduced: bool)
      modifies this`stage, this`pending, this`found
      ensures Value() == if reproduced then old(Value()).(stage := Culprit, pending := [], found := probe)
                         else old(Value()).(stage := Probe)
    {
      stage := Probe;
      if reproduced {
        pending, found, stage := [], probe, Culprit;
      }
    }

    /** What a reproduction, or its absence, does to the fields. */
    method Record(reproduced: bool, maxNoReproduce: int)
      modifies this
      ensures Value() == HuntModel.Record(old(Value()), reproduced, maxNoReproduce)
    {
      var probe := TakeAnswered();
      if stage == Lead {
        EndLead(probe, reproduced);
      } else if probe == parent {
        RecordWholeSet(reproduced);
      } else {
        RecordHalf(probe, reproduced, maxNoReproduce);
      }
    }

    method RecordHalf(probe: seq<int>, reproduced: bool, maxNoReproduce: int)
      modifies this
      ensures Value() == HuntModel.RecordHalf(old(Value()), probe, reproduced, maxNoReproduce)
    {
      if reproduced {
        guiltyHalves := guiltyHalves + [probe];
        noReproduce := 0;
      }
      if queue == [] {
        CloseSplit(maxNoReproduce);
      }
    }

    /** Both halves are answered: keep the guilty ones, or retry, or ask the whole set. */
    method CloseSplit(maxNoReproduce: int)
      requires queue == []
      modifies this
      ensures Value() == HuntModel.CloseSplit(old(Value()), maxNoReproduce)
    {
      var asked, depth := parent, level;
      LeaveSplit();
      if guiltyHalves != [] {
        pending, guiltyHalves := guiltyHalves + pending, [];
        return;
      }
      noReproduce := noReproduce + 1;
      if noReproduce >= maxNoReproduce {
        AskWhole(asked, depth);
      } else {
        pending := [asked] + pending;
      }
    }

    method AskWhole(whole: seq<int>, depth: int)
      modifies this`parent, this`level, this`queue
      ensures Value() == old(Value()).(parent := whole, level := depth, queue := [whole])
    {
      parent, level, queue := whole, depth, [whole];
    }

    method RecordWholeSet(reproduced: bool)
      modifies this
      ensures Value() == HuntModel.RecordWholeSet(old(Value()), reproduced)
    {
      var whole := parent;
      LeaveSplit();
      if reproduced {
        Convict(whole);
        return;
      }
      pending := [];
      Settle();
    }

    method Convict(whole: seq<int>)
      modifies this`found, this`noReproduce, this`stage
      ensures Value() == old(Value()).(found := Sorted(old(found) + whole), noReproduce := 0,
                                       stage := if pending == [] then Culprit else old(stage))
    {
      found := Sorted(found + whole);
      noReproduce := 0;
      if pending == [] {
        stage := Culprit;
      }
    }

    /** Ask for a mask on a reachable hunt: there is one unless the hunt is over. */
    method Ask() returns (live: Option<seq<int>>)
      requires Inv(Value())
      modifies this
      ensures (Value(), live) == HuntModel.NextLiveSet(old(Value())) && Inv(Value())
      ensures (live.None? <==> Terminal(Value())) && (live.Some? ==> live.value == inFlight != [])
    {
      NextKeepsInv(Value());
      NextAsksUnlessOver(Value());
      live := NextLiveSet();
    }

    /** Answer the mask in flight on a reachable hunt. */
    method Answer(reproduced: bool, maxNoReproduce: int)
      requires Inv(Value()) && inFlight != []
      modifies this
      ensures Value() == HuntModel.Record(old(Value()), reproduced, maxNoReproduce) && Inv(Value())
    {
      RecordKeepsInv(Value(), reproduced, maxNoReproduce);
      Record(reproduced, maxNoReproduce);
    }
  }
}
