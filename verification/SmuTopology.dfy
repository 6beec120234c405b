/** Discovering which physical slot each OS core id stands for. */
module SmuTopology {
  import opened Wrappers
  import opened CoreSets
  import opened SmuCommands

  const CCD_FUSE_STRIDE := 0x200_0000

  /** What the OS reports: each core's L3 group if known, and how far it is trusted. */
  datatype Topology = Topology(cores: map<int, Option<int>>, layoutKnown: bool, allOnline: Option<bool>)

  /** The registers an SMN read can reach. */
  datatype Smn = Smn(readable: bool, registers: map<int, nat>)

  // ----- grouping cores by CCD -----

  predicate ByL3(t: Topology) {
    forall c :: c in t.cores ==> t.cores[c].Some?
  }

  function CcdOf(t: Topology, c: int): int
    requires c in t.cores
  {
    if ByL3(t) then t.cores[c].value else c / SLOTS_PER_CCD
  }

  function Members(t: Topology, ccd: int): set<int> {
    set c | c in t.cores && CcdOf(t, c) == ccd
  }

  /** The cores of one CCD, ascending. */
  ghost function Group(t: Topology, ccd: int): seq<int> {
    ListSet(Members(t, ccd))
  }

  function Ccds(t: Topology): set<int> {
    set c | c in t.cores :: CcdOf(t, c)
  }

  ghost predicate TooLarge(t: Topology) {
    exists k :: k in Ccds(t) && |Group(t, k)| > SLOTS_PER_CCD
  }

  // ----- the slots of one group -----

  function Residues(ids: seq<int>): seq<int> {
    if ids == [] then [] else [ids[0] % SLOTS_PER_CCD] + Residues(ids[1..])
  }

  function Prefix(n: nat): seq<int> {
    if n == 0 then [] else Prefix(n - 1) + [n - 1]
  }

  function Windows(ids: seq<int>): set<int> {
    set c | c in ids :: c / SLOTS_PER_CCD
  }

  /** Slots taken from the ids alone, where they are believed; None leaves it to the fuse. */
  function DeriveGroupSlots(ids: seq<int>, holesTrusted: bool): Option<seq<int>> {
    if |Windows(ids)| != 1 then None
    else
      var rel := Residues(ids);
      if rel == Prefix(|ids|) then (if |ids| == SLOTS_PER_CCD then Some(rel) else None)
      else if holesTrusted then Some(rel) else None
  }

  /** Bit `slot` of the fuse, counted from the low end. */
  predicate Fused(fuse: nat, slot: nat) {
    if slot == 0 then fuse % 2 == 1 else Fused(fuse / 2, slot - 1)
  }

  function LiveFrom(fuse: nat, slot: nat): seq<int>
    decreases SLOTS_PER_CCD - slot
  {
    if slot >= SLOTS_PER_CCD then []
    else if Fused(fuse, slot) then LiveFrom(fuse, slot + 1)
    else [slot] + LiveFrom(fuse, slot + 1)
  }

  /** A set bit is a fused-off slot; the others are live, ascending. */
  function LiveSlots(fuse: nat): seq<int> {
    LiveFrom(fuse, 0)
  }

  /** The CCD's live slots from its fuse; None when it cannot be read or disagrees
      with the number of cores. */
  function FuseGroupSlots(fuseAddr: Option<int>, smn: Smn, ccd: int, want: nat): Option<seq<int>> {
    if fuseAddr.None? || !smn.readable then None
    else
      var address := fuseAddr.value + ccd * CCD_FUSE_STRIDE;
      if address !in smn.registers then None
      else
        var live := LiveSlots(smn.registers[address]);
        if |live| == want then Some(live) else None
  }

  function GroupSlots(fuseAddr: Option<int>, smn: Smn, ccd: int, ids: seq<int>): Option<seq<int>> {
    var own := DeriveGroupSlots(ids, true);
    if own.Some? then own else FuseGroupSlots(fuseAddr, smn, ccd, |ids|)
  }

  // ----- the map -----

  type CoreMap = map<int, (int, int)>

  /** Every core of one group sits at the slot in the same position. */
  ghost predicate Places(m: CoreMap, ids: seq<int>, ccd: int, slots: seq<int>) {
    && |slots| == |ids|
    && forall i :: 0 <= i < |ids| ==> ids[i] in m && m[ids[i]].0 == ccd && m[ids[i]].1 == slots[i]
  }

  /** The map discovery produces when every group's slots are known. */
  ghost predicate Installs(m: CoreMap, t: Topology, fuseAddr: Option<int>, smn: Smn) {
    && m.Keys == t.cores.Keys
    && forall k :: k in Ccds(t) ==>
         && GroupSlots(fuseAddr, smn, k, Group(t, k)).Some?
         && Places(m, Group(t, k), k, GroupSlots(fuseAddr, smn, k, Group(t, k)).value)
  }

  /** An address map that never sends two cores to one slot. */
  ghost predicate Addressable(m: CoreMap) {
    && (forall c :: c in m ==> 0 <= m[c].1 < SLOTS_PER_CCD)
    && (forall a, b :: a in m && b in m && m[a] == m[b] ==> a == b)
  }

  // ----- slots are strictly ascending -----

  lemma {:induction false} ResiduesAt(ids: seq<int>, i: nat)
    requires i < |ids|
    ensures |Residues(ids)| == |ids| && Residues(ids)[i] == ids[i] % SLOTS_PER_CCD
  {
    if |ids| > 1 {
      ResiduesAt(ids[1..], if i > 0 then i - 1 else 0);
    }
  }

  lemma {:induction false} PrefixAt(n: nat)
    ensures |Prefix(n)| == n && forall i :: 0 <= i < n ==> Prefix(n)[i] == i
  {
    if n > 0 {
      PrefixAt(n - 1);
    }
  }

  lemma SingletonMembers<T>(s: set<T>, a: T, b: T)
    requires |s| == 1 && a in s && b in s
    ensures a == b
  {
    SubsetCardinality({a, b}, s);
  }

  lemma OneWindow(ids: seq<int>, i: nat, j: nat)
    requires |Windows(ids)| == 1 && i < |ids| && j < |ids|
    ensures ids[i] / SLOTS_PER_CCD == ids[j] / SLOTS_PER_CCD
  {
    assert ids[i] in ids && ids[j] in ids;
    SingletonMembers(Windows(ids), ids[i] / SLOTS_PER_CCD, ids[j] / SLOTS_PER_CCD);
  }

  lemma DerivedSlotsAscend(ids: seq<int>)
    requires Strict(ids) && DeriveGroupSlots(ids, true).Some?
    ensures var slots := DeriveGroupSlots(ids, true).value;
      slots == Residues(ids) && |slots| == |ids| && Strict(slots) &&
      forall s :: s in slots ==> 0 <= s < SLOTS_PER_CCD
  {
    var slots := Residues(ids);
    if ids != [] {
      ResiduesAt(ids, 0);
    }
    forall i, j | 0 <= i < j < |ids|
      ensures slots[i] < slots[j]
    {
      OneWindow(ids, i, j);
      ResiduesAt(ids, i);
      ResiduesAt(ids, j);
    }
    forall i | 0 <= i < |ids|
      ensures 0 <= slots[i] < SLOTS_PER_CCD
    {
      ResiduesAt(ids, i);
    }
  }

  ghost predicate SlotsFrom(slots: seq<int>, lo: int) {
    Strict(slots) && forall s :: s in slots ==> lo <= s < SLOTS_PER_CCD
  }

  lemma SlotInFront(slot: nat, rest: seq<int>)
    requires slot < SLOTS_PER_CCD && SlotsFrom(rest, slot + 1)
    ensures SlotsFrom([slot] + rest, slot)
  {
    ConsKeepsOrder(slot, rest);
  }

  lemma {:induction false} LiveFromAscends(fuse: nat, slot: nat)
    ensures SlotsFrom(LiveFrom(fuse, slot), slot)
    decreases SLOTS_PER_CCD - slot
  {
    if slot < SLOTS_PER_CCD {
      var rest := LiveFrom(fuse, slot + 1);
      LiveFromAscends(fuse, slot + 1);
      SlotInFront(slot, rest);
    }
  }

  lemma LiveFromStep(fuse: nat, slot: nat, s: int)
    requires slot < SLOTS_PER_CCD
    ensures s in LiveFrom(fuse, slot) <==> s in LiveFrom(fuse, slot + 1) || (s == slot && !Fused(fuse, slot))
  {
  }

  /** A slot is live exactly when its fuse bit is clear. */
  lemma {:induction false} LiveFromMembers(fuse: nat, slot: nat, s: nat)
    ensures s in LiveFrom(fuse, slot) <==> slot <= s < SLOTS_PER_CCD && !Fused(fuse, s)
    decreases SLOTS_PER_CCD - slot
  {
    if slot < SLOTS_PER_CCD {
      LiveFromStep(fuse, slot, s);
      LiveFromMembers(fuse, slot + 1, s);
    }
  }

  lemma GroupSlotsAscend(fuseAddr: Option<int>, smn: Smn, ccd: int, ids: seq<int>)
    requires Strict(ids) && GroupSlots(fuseAddr, smn, ccd, ids).Some?
    ensures var slots := GroupSlots(fuseAddr, smn, ccd, ids).value;
      |slots| == |ids| && Strict(slots) && forall s :: s in slots ==> 0 <= s < SLOTS_PER_CCD
  {
    if DeriveGroupSlots(ids, true).Some? {
      DerivedSlotsAscend(ids);
    } else {
      LiveFromAscends(smn.registers[fuseAddr.value + ccd * CCD_FUSE_STRIDE], 0);
    }
  }

  lemma IndexInGroup(t: Topology, c: int) returns (i: nat)
    requires c in t.cores
    ensures CcdOf(t, c) in Ccds(t)
    ensures i < |Group(t, CcdOf(t, c))| && Group(t, CcdOf(t, c))[i] == c
  {
    assert c in ToSet(Group(t, CcdOf(t, c)));
    i :| 0 <= i < |Group(t, CcdOf(t, c))| && Group(t, CcdOf(t, c))[i] == c;
  }

  /** Whatever the numbering, the map keeps the CCD the OS reports, puts the cores of
      a CCD at ascending slots of its window, and never two cores at one slot. */
  lemma InstalledMapIsAddressable(m: CoreMap, t: Topology, fuseAddr: Option<int>, smn: Smn)
    requires Installs(m, t, fuseAddr, smn)
    ensures Addressable(m)
    ensures forall c :: c in m ==> m[c].0 == CcdOf(t, c)
    ensures forall a, b :: a in m && b in m && a < b && m[a].0 == m[b].0 ==> m[a].1 < m[b].1
  {
    forall c | c in m
      ensures m[c].0 == CcdOf(t, c) && 0 <= m[c].1 < SLOTS_PER_CCD
    {
      var i := IndexInGroup(t, c);
      var k := CcdOf(t, c);
      GroupSlotsAscend(fuseAddr, smn, k, Group(t, k));
      assert GroupSlots(fuseAddr, smn, k, Group(t, k)).value[i] in GroupSlots(fuseAddr, smn, k, Group(t, k)).value;
    }
    forall a, b | a in m && b in m && a < b && m[a].0 == m[b].0
      ensures m[a].1 < m[b].1
    {
      var i := IndexInGroup(t, a);
      var j := IndexInGroup(t, b);
      var k := CcdOf(t, a);
      assert CcdOf(t, b) == k;
      GroupSlotsAscend(fuseAddr, smn, k, Group(t, k));
      assert i < j;
    }
  }

  // ----- the map against the silicon -----

  /** The firmware's own assignment: within a CCD, higher ids sit at higher slots. */
  ghost predicate Firmware(truth: CoreMap, t: Topology) {
    && truth.Keys == t.cores.Keys
    && (forall c :: c in truth ==> 0 <= truth[c].1 < SLOTS_PER_CCD && CcdOf(t, c) == truth[c].0)
    && (forall a, b :: a in truth && b in truth && a < b && truth[a].0 == truth[b].0 ==> truth[a].1 < truth[b].1)
  }

  ghost function Live(truth: CoreMap, ccd: int): set<int> {
    set c | c in truth && truth[c].0 == ccd :: truth[c].1
  }

  /** Every fuse that can be read marks exactly the slots without a core. */
  ghost predicate FuseTruthful(truth: CoreMap, t: Topology, fuseAddr: Option<int>, smn: Smn) {
    forall k :: k in Ccds(t) && fuseAddr.Some? && fuseAddr.value + k * CCD_FUSE_STRIDE in smn.registers ==>
      ToSet(LiveSlots(smn.registers[fuseAddr.value + k * CCD_FUSE_STRIDE])) == Live(truth, k)
  }

  function TruthSlots(truth: CoreMap, ids: seq<int>): seq<int>
    requires forall c :: c in ids ==> c in truth
  {
    if ids == [] then []
    else
      var first := ids[0];
      assert first in ids;
      [truth[first].1] + TruthSlots(truth, ids[1..])
  }

  lemma {:induction false} TruthSlotsAt(truth: CoreMap, ids: seq<int>)
    requires forall c :: c in ids ==> c in truth
    ensures |TruthSlots(truth, ids)| == |ids|
    ensures forall i :: 0 <= i < |ids| ==> TruthSlots(truth, ids)[i] == truth[ids[i]].1
  {
    if ids != [] {
      TruthSlotsAt(truth, ids[1..]);
    }
  }

  lemma GroupMembers(truth: CoreMap, t: Topology, k: int)
    requires Firmware(truth, t)
    ensures forall c :: c in Group(t, k) <==> c in truth && truth[c].0 == k
  {
    assert forall c :: c in Group(t, k) <==> c in ToSet(Group(t, k));
  }

  lemma TruthSlotsAscend(truth: CoreMap, t: Topology, k: int)
    requires Firmware(truth, t) && forall c :: c in Group(t, k) ==> c in truth && truth[c].0 == k
    ensures var slots := TruthSlots(truth, Group(t, k));
      && |slots| == |Group(t, k)| && Strict(slots) && forall s :: s in slots ==> 0 <= s < SLOTS_PER_CCD
  {
    var ids := Group(t, k);
    TruthSlotsAt(truth, ids);
    forall i, j | 0 <= i < j < |ids|
      ensures truth[ids[i]].1 < truth[ids[j]].1
    {
      assert ids[i] in ids && ids[j] in ids && ids[i] < ids[j];
    }
  }

  lemma TruthSlotsAreLive(truth: CoreMap, ids: seq<int>, k: int)
    requires forall c :: c in ids <==> c in truth && truth[c].0 == k
    ensures ToSet(TruthSlots(truth, ids)) == Live(truth, k)
  {
    TruthSlotsAt(truth, ids);
    var slots := TruthSlots(truth, ids);
    forall s | s in Live(truth, k)
      ensures s in ToSet(slots)
    {
      var c :| c in truth && truth[c].0 == k && truth[c].1 == s;
      var i :| 0 <= i < |ids| && ids[i] == c;
      assert slots[i] == s;
    }
    forall s | s in ToSet(slots)
      ensures s in Live(truth, k)
    {
      var i :| 0 <= i < |slots| && slots[i] == s;
      var c := ids[i];
      assert c in ids;
    }
  }

  lemma GroupInTruth(truth: CoreMap, t: Topology, k: int)
    requires Firmware(truth, t)
    ensures forall c :: c in Group(t, k) ==> c in truth && truth[c].0 == k
    ensures var slots := TruthSlots(truth, Group(t, k));
      && |slots| == |Group(t, k)| && Strict(slots) && ToSet(slots) == Live(truth, k)
      && forall s :: s in slots ==> 0 <= s < SLOTS_PER_CCD
  {
    GroupMembers(truth, t, k);
    TruthSlotsAscend(truth, t, k);
    TruthSlotsAreLive(truth, Group(t, k), k);
  }

  /** The group's own numbering, where it is believed, shows the live slots. */
  ghost predicate NumberingShowsSlots(truth: CoreMap, t: Topology, k: int) {
    DeriveGroupSlots(Group(t, k), true).Some? ==> ToSet(Residues(Group(t, k))) == Live(truth, k)
  }

  lemma GroupIsTrueIff(truth: CoreMap, t: Topology, fuseAddr: Option<int>, smn: Smn, k: int)
    requires Firmware(truth, t) && FuseTruthful(truth, t, fuseAddr, smn) && k in Ccds(t)
    requires GroupSlots(fuseAddr, smn, k, Group(t, k)).Some?
    ensures forall c :: c in Group(t, k) ==> c in truth
    ensures GroupSlots(fuseAddr, smn, k, Group(t, k)).value == TruthSlots(truth, Group(t, k)) <==>
            NumberingShowsSlots(truth, t, k)
  {
    var ids := Group(t, k);
    var slots := GroupSlots(fuseAddr, smn, k, ids).value;
    GroupInTruth(truth, t, k);
    GroupSlotsAscend(fuseAddr, smn, k, ids);
    if DeriveGroupSlots(ids, true).Some? {
      DerivedSlotsAscend(ids);
      if ToSet(slots) == Live(truth, k) {
        StrictListingIsUnique(slots, TruthSlots(truth, ids));
      }
    } else {
      StrictListingIsUnique(slots, TruthSlots(truth, ids));
    }
  }

  /** With a truthful fuse the installed map is the firmware's own assignment exactly
      when no group is believed on a numbering that hides its slots. */
  lemma InstalledMapIsTrueIff(m: CoreMap, truth: CoreMap, t: Topology, fuseAddr: Option<int>, smn: Smn)
    requires Installs(m, t, fuseAddr, smn) && Firmware(truth, t) && FuseTruthful(truth, t, fuseAddr, smn)
    ensures m == truth <==> forall k :: k in Ccds(t) ==> NumberingShowsSlots(truth, t, k)
  {
    forall k | k in Ccds(t)
      ensures NumberingShowsSlots(truth, t, k) <==> forall c :: c in Group(t, k) ==> c in m && m[c] == truth[c]
    {
      GroupIsTrueIff(truth, t, fuseAddr, smn, k);
      GroupInTruth(truth, t, k);
      var ids := Group(t, k);
      var slots := GroupSlots(fuseAddr, smn, k, ids).value;
      TruthSlotsAt(truth, ids);
      if forall c :: c in ids ==> c in m && m[c] == truth[c] {
        forall i | 0 <= i < |ids|
          ensures slots[i] == TruthSlots(truth, ids)[i]
        {
          assert ids[i] in ids;
        }
        assert slots == TruthSlots(truth, ids);
      }
      if slots == TruthSlots(truth, ids) {
        forall c | c in ids
          ensures c in m && m[c] == truth[c]
        {
          var i :| 0 <= i < |ids| && ids[i] == c;
        }
      }
    }
    if forall k :: k in Ccds(t) ==> NumberingShowsSlots(truth, t, k) {
      forall c | c in m
        ensures m[c] == truth[c]
      {
        var i := IndexInGroup(t, c);
      }
      assert m == truth;
    }
    if m == truth {
      forall k | k in Ccds(t)
        ensures NumberingShowsSlots(truth, t, k)
      {
        GroupInTruth(truth, t, k);
      }
    }
  }

  // ----- the same condition, in registers -----

  /** The fuse of every CCD can be read. */
  ghost predicate FusesReadable(t: Topology, base: int, smn: Smn) {
    forall k :: k in Ccds(t) ==> base + k * CCD_FUSE_STRIDE in smn.registers
  }

  /** Where the group's own numbering is believed, it says what the fuse says. */
  ghost predicate NumberingAgrees(t: Topology, base: int, smn: Smn, k: int)
    requires base + k * CCD_FUSE_STRIDE in smn.registers
  {
    DeriveGroupSlots(Group(t, k), true).Some? ==>
      Residues(Group(t, k)) == LiveSlots(smn.registers[base + k * CCD_FUSE_STRIDE])
  }

  lemma AgreesIffShows(truth: CoreMap, t: Topology, base: int, smn: Smn, k: int)
    requires k in Ccds(t) && base + k * CCD_FUSE_STRIDE in smn.registers && FuseTruthful(truth, t, Some(base), smn)
    ensures NumberingAgrees(t, base, smn, k) <==> NumberingShowsSlots(truth, t, k)
  {
    var ids := Group(t, k);
    var fuse := smn.registers[base + k * CCD_FUSE_STRIDE];
    if DeriveGroupSlots(ids, true).Some? {
      DerivedSlotsAscend(ids);
      LiveFromAscends(fuse, 0);
      if ToSet(Residues(ids)) == ToSet(LiveSlots(fuse)) {
        StrictListingIsUnique(Residues(ids), LiveSlots(fuse));
      }
    }
  }

  /** With truthful, readable fuses the installed map is the firmware's own exactly when
      each numbering that is believed agrees with its CCD's fuse: a comparison the
      program could make, and does not. */
  lemma MapIsTrueIffFusesAgree(m: CoreMap, truth: CoreMap, t: Topology, base: int, smn: Smn)
    requires Installs(m, t, Some(base), smn) && Firmware(truth, t) && FuseTruthful(truth, t, Some(base), smn)
    requires FusesReadable(t, base, smn)
    ensures m == truth <==> forall k :: k in Ccds(t) ==> NumberingAgrees(t, base, smn, k)
  {
    InstalledMapIsTrueIff(m, truth, t, Some(base), smn);
    forall k | k in Ccds(t)
      ensures NumberingAgrees(t, base, smn, k) <==> NumberingShowsSlots(truth, t, k)
    {
      AgreesIffShows(truth, t, base, smn, k);
    }
  }
}
