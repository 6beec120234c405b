/** Which numbering schemes of the firmware the discovered map gets right. */
module SmuNumbering {
  import opened Wrappers
  import opened CoreSets
  import opened SmuCommands
  import opened SmuTopology

  /** A fused-off slot leaves a hole in the ids. */
  ghost predicate GapPreserving(truth: CoreMap) {
    forall c :: c in truth ==> c == SLOTS_PER_CCD * truth[c].0 + truth[c].1
  }

  /** Each CCD's ids start at its own window and have no holes. */
  ghost predicate CompactedPerCcd(truth: CoreMap) {
    forall c :: c in truth ==> c / SLOTS_PER_CCD == truth[c].0 && (c % SLOTS_PER_CCD > 0 ==> c - 1 in truth)
  }

  /** What the OS knows of L3 groups agrees with the silicon. */
  ghost predicate L3Agrees(truth: CoreMap, t: Topology) {
    forall c :: c in t.cores && c in truth && t.cores[c].Some? ==> t.cores[c].value == truth[c].0
  }

  ghost predicate Assignment(truth: CoreMap, t: Topology) {
    && truth.Keys == t.cores.Keys
    && (forall c :: c in truth ==> 0 <= truth[c].1 < SLOTS_PER_CCD)
    && (forall a, b :: a in truth && b in truth && a < b && truth[a].0 == truth[b].0 ==> truth[a].1 < truth[b].1)
  }

  lemma WindowIsCcd(truth: CoreMap, c: int)
    requires GapPreserving(truth) || CompactedPerCcd(truth)
    requires c in truth && 0 <= truth[c].1 < SLOTS_PER_CCD
    ensures c / SLOTS_PER_CCD == truth[c].0
    ensures GapPreserving(truth) ==> c % SLOTS_PER_CCD == truth[c].1
  {
  }

  lemma SchemesAreFirmware(truth: CoreMap, t: Topology)
    requires Assignment(truth, t) && L3Agrees(truth, t)
    requires GapPreserving(truth) || CompactedPerCcd(truth)
    ensures Firmware(truth, t)
  {
    forall c | c in truth
      ensures CcdOf(t, c) == truth[c].0
    {
      WindowIsCcd(truth, c);
    }
  }

  lemma GapsShowSlots(truth: CoreMap, t: Topology, k: int)
    requires Firmware(truth, t) && GapPreserving(truth)
    ensures NumberingShowsSlots(truth, t, k)
  {
    var ids := Group(t, k);
    GroupInTruth(truth, t, k);
    TruthSlotsAt(truth, ids);
    if ids == [] {
      assert Residues(ids) == TruthSlots(truth, ids);
    } else {
      forall i | 0 <= i < |ids|
        ensures |Residues(ids)| == |ids| && Residues(ids)[i] == TruthSlots(truth, ids)[i]
      {
        ResiduesAt(ids, i);
        assert ids[i] in ids;
        WindowIsCcd(truth, ids[i]);
      }
      ResiduesAt(ids, 0);
      assert Residues(ids) == TruthSlots(truth, ids);
    }
  }

  lemma PredecessorComesBefore(s: seq<int>, i: nat)
    requires Strict(s) && i < |s| && s[i] - 1 in s
    ensures i > 0 && s[i - 1] == s[i] - 1
  {
    var j :| 0 <= j < |s| && s[j] == s[i] - 1;
  }

  /** Ids that start a window and have no holes count up from it. */
  lemma {:induction false} CompactIdsCountUp(truth: CoreMap, t: Topology, k: int, i: nat)
    requires Firmware(truth, t) && CompactedPerCcd(truth) && i < |Group(t, k)|
    ensures Group(t, k)[i] == SLOTS_PER_CCD * k + i
  {
    var ids := Group(t, k);
    GroupInTruth(truth, t, k);
    var c := ids[i];
    assert c in ids;
    if i > 0 {
      CompactIdsCountUp(truth, t, k, i - 1);
      assert ids[i - 1] < c;
    }
    if c % SLOTS_PER_CCD > 0 {
      assert c - 1 in truth && truth[c - 1].0 == (c - 1) / SLOTS_PER_CCD == k;
      assert c - 1 in ToSet(ids);
      PredecessorComesBefore(ids, i);
    }
  }

  lemma CompactResidue(truth: CoreMap, t: Topology, k: int, i: nat)
    requires Firmware(truth, t) && CompactedPerCcd(truth) && i < |Group(t, k)|
    ensures i < SLOTS_PER_CCD && |Residues(Group(t, k))| == |Group(t, k)| && Residues(Group(t, k))[i] == i
  {
    var c := Group(t, k)[i];
    CompactIdsCountUp(truth, t, k, i);
    assert c in ToSet(Group(t, k));
    assert c / SLOTS_PER_CCD == k;
    ResiduesAt(Group(t, k), i);
  }

  lemma CompactIdsArePrefix(truth: CoreMap, t: Topology, k: int)
    requires Firmware(truth, t) && CompactedPerCcd(truth)
    ensures |Group(t, k)| <= SLOTS_PER_CCD
    ensures Residues(Group(t, k)) == Prefix(|Group(t, k)|)
  {
    var n := |Group(t, k)|;
    PrefixAt(n);
    if n > 0 {
      CompactResidue(truth, t, k, n - 1);
    }
    forall i: nat | i < n
      ensures Residues(Group(t, k))[i] == Prefix(n)[i]
    {
      CompactResidue(truth, t, k, i);
    }
  }

  /** A group with as many cores as a CCD has slots fills all of them. */
  lemma FullGroupFillsTheWindow(slots: seq<int>)
    requires Strict(slots) && |slots| == SLOTS_PER_CCD && forall s :: s in slots ==> 0 <= s < SLOTS_PER_CCD
    ensures ToSet(slots) == ToSet(Prefix(SLOTS_PER_CCD))
  {
    PrefixAt(SLOTS_PER_CCD);
    var all := Prefix(SLOTS_PER_CCD);
    forall s | s in slots
      ensures s in all
    {
      assert all[s] == s;
    }
    StrictSubsetLength(slots, all);
  }

  lemma CompactionShowsSlots(truth: CoreMap, t: Topology, k: int)
    requires Firmware(truth, t) && CompactedPerCcd(truth)
    ensures NumberingShowsSlots(truth, t, k)
  {
    var ids := Group(t, k);
    CompactIdsArePrefix(truth, t, k);
    if DeriveGroupSlots(ids, true).Some? {
      GroupInTruth(truth, t, k);
      FullGroupFillsTheWindow(TruthSlots(truth, ids));
    }
  }

  /** Under either scheme, with a truthful fuse, an installed map is the firmware's own. */
  lemma SchemesAreDiscovered(m: CoreMap, truth: CoreMap, t: Topology, fuseAddr: Option<int>, smn: Smn)
    requires Assignment(truth, t) && L3Agrees(truth, t)
    requires GapPreserving(truth) || CompactedPerCcd(truth)
    requires FuseTruthful(truth, t, fuseAddr, smn) && Installs(m, t, fuseAddr, smn)
    ensures m == truth
  {
    SchemesAreFirmware(truth, t);
    forall k | k in Ccds(t)
      ensures NumberingShowsSlots(truth, t, k)
    {
      if GapPreserving(truth) {
        GapsShowSlots(truth, t, k);
      } else {
        CompactionShowsSlots(truth, t, k);
      }
    }
    InstalledMapIsTrueIff(m, truth, t, fuseAddr, smn);
  }

  // ----- a numbering that misleads -----

  /** Two CCDs with one live core each, both in slot 0, numbered straight through. */
  const STRAIGHT: CoreMap := map[0 := (0, 0), 1 := (1, 0)]

  const STRAIGHT_TOPOLOGY := Topology(map[0 := Some(0), 1 := Some(1)], true, Some(true))

  const STRAIGHT_FUSES := Smn(true, map[0 := 0xFE, CCD_FUSE_STRIDE := 0xFE])

  const STRAIGHT_MAP: CoreMap := map[0 := (0, 0), 1 := (1, 1)]

  lemma StraightGroup(k: int)
    requires k == 0 || k == 1
    ensures Group(STRAIGHT_TOPOLOGY, k) == [k] && k in Ccds(STRAIGHT_TOPOLOGY)
  {
    assert ByL3(STRAIGHT_TOPOLOGY) && CcdOf(STRAIGHT_TOPOLOGY, k) == k;
    assert Members(STRAIGHT_TOPOLOGY, k) == {k};
    StrictListingIsUnique(Group(STRAIGHT_TOPOLOGY, k), [k]);
  }

  lemma StraightCcds()
    ensures Ccds(STRAIGHT_TOPOLOGY) == {0, 1}
  {
    assert ByL3(STRAIGHT_TOPOLOGY);
    StraightGroup(0);
    StraightGroup(1);
  }

  lemma LoneCoreDerivation(c: int)
    requires 0 <= c < SLOTS_PER_CCD
    ensures DeriveGroupSlots([c], true) == if c == 0 then None else Some([c])
  {
    PrefixAt(1);
    assert Residues([c]) == [c];
    assert c in [c];
    assert Windows([c]) == {0};
    assert Prefix(1)[0] == 0;
  }

  /** A number of `n` binary ones. */
  function Ones(n: nat): nat {
    if n == 0 then 0 else 2 * Ones(n - 1) + 1
  }

  lemma {:induction false} OnesAreFused(n: nat, slot: nat)
    requires slot < n
    ensures Fused(Ones(n), slot)
  {
    assert Ones(n) % 2 == 1 && Ones(n) / 2 == Ones(n - 1);
    if slot > 0 {
      OnesAreFused(n - 1, slot - 1);
    }
  }

  lemma SevenOnes()
    ensures 0xFE == 2 * Ones(7)
  {
    assert Ones(1) == 1;
    assert Ones(2) == 3;
    assert Ones(3) == 7;
    assert Ones(4) == 0xF;
    assert Ones(5) == 0x1F;
    assert Ones(6) == 0x3F;
    assert Ones(7) == 0x7F;
  }

  lemma StraightFuseBit(slot: nat)
    requires slot < SLOTS_PER_CCD
    ensures Fused(0xFE, slot) <==> slot != 0
  {
    SevenOnes();
    if slot > 0 {
      assert Fused(0xFE, slot) <==> Fused(0xFE / 2, slot - 1);
      OnesAreFused(7, slot - 1);
    }
  }

  /** Bits 1 to 7 set: only slot 0 is live. */
  lemma StraightFuse()
    ensures LiveSlots(0xFE) == [0]
  {
    LiveFromAscends(0xFE, 0);
    forall s: nat | s < SLOTS_PER_CCD
      ensures s in LiveSlots(0xFE) <==> s == 0
    {
      StraightFuseBit(s);
      LiveFromMembers(0xFE, 0, s);
    }
    StrictListingIsUnique(LiveSlots(0xFE), [0]);
  }

  lemma StraightIsTruthful()
    ensures Firmware(STRAIGHT, STRAIGHT_TOPOLOGY)
    ensures FuseTruthful(STRAIGHT, STRAIGHT_TOPOLOGY, Some(0), STRAIGHT_FUSES)
  {
    StraightCcds();
    StraightFuse();
    StraightLive();
    assert CcdOf(STRAIGHT_TOPOLOGY, 0) == 0 && CcdOf(STRAIGHT_TOPOLOGY, 1) == 1;
  }

  lemma StraightLive()
    ensures Live(STRAIGHT, 0) == {0} && Live(STRAIGHT, 1) == {0}
  {
    assert STRAIGHT[0].1 == 0 && STRAIGHT[1].1 == 0;
  }

  lemma StraightIsInstalled()
    ensures Installs(STRAIGHT_MAP, STRAIGHT_TOPOLOGY, Some(0), STRAIGHT_FUSES)
  {
    StraightCcds();
    StraightFuse();
    StraightGroup(0);
    StraightGroup(1);
    LoneCoreDerivation(0);
    LoneCoreDerivation(1);
  }

  /** Ids that run straight through the CCDs can look like a gap-preserving window, and
      are then believed although the fuse tells the truth. */
  lemma StraightNumberingMisleads()
    ensures Firmware(STRAIGHT, STRAIGHT_TOPOLOGY)
    ensures FuseTruthful(STRAIGHT, STRAIGHT_TOPOLOGY, Some(0), STRAIGHT_FUSES)
    ensures Installs(STRAIGHT_MAP, STRAIGHT_TOPOLOGY, Some(0), STRAIGHT_FUSES)
    ensures STRAIGHT_MAP != STRAIGHT
  {
    StraightIsTruthful();
    StraightIsInstalled();
    assert STRAIGHT_MAP[1] != STRAIGHT[1];
  }
}
