/** What discovery comes to, said of ids and fuse bits: which CCDs can be located, and
    the slot every core gets. */
module SmuDiscovery {
  import opened Wrappers
  import opened Bits
  import opened CoreSets
  import opened SmuCommands
  import opened SmuTopology

  // ----- by numbering -----

  ghost predicate OneWindowOnly(ids: seq<int>) {
    forall i, j :: 0 <= i < |ids| && 0 <= j < |ids| ==> ids[i] / 8 == ids[j] / 8
  }

  /** The ids show their slots: they fill one window of eight, or leave a hole inside it. */
  ghost predicate Shown(ids: seq<int>) {
    OneWindowOnly(ids) && (|ids| == 8 || exists i :: 0 <= i < |ids| && ids[i] % 8 != i)
  }

  // ----- by fuse -----

  /** The slots whose bit is clear. */
  ghost function ClearBits(fuse: nat): set<int> {
    set s: int | 0 <= s < 8 && fuse / Pow2(s) % 2 == 0
  }

  /** The CCD's fuse can be read and leaves as many slots as there are cores. */
  ghost predicate Counted(fuseAddr: Option<int>, smn: Smn, ccd: int, want: nat) {
    && fuseAddr.Some? && smn.readable
    && fuseAddr.value + ccd * 0x200_0000 in smn.registers
    && |ClearBits(smn.registers[fuseAddr.value + ccd * 0x200_0000])| == want
  }

  lemma HalfThenShift(fuse: nat, s: nat)
    ensures fuse / 2 / Pow2(s) == fuse / Pow2(s + 1)
  {
    var d := Pow2(s);
    var q := fuse / 2 / d;
    assert Pow2(s + 1) == 2 * d;
    assert fuse / 2 == d * q + fuse / 2 % d;
    assert fuse == 2 * (fuse / 2) + fuse % 2;
    var r := 2 * (fuse / 2 % d) + fuse % 2;
    assert 2 * (d * q) == q * (2 * d);
    Quotient(q, 2 * d, r);
  }

  lemma {:induction false} FusedIsBit(fuse: nat, s: nat)
    ensures Fused(fuse, s) <==> fuse / Pow2(s) % 2 == 1
  {
    if s > 0 {
      FusedIsBit(fuse / 2, s - 1);
      HalfThenShift(fuse, s - 1);
    }
  }

  lemma LiveAreClear(fuse: nat)
    ensures Strict(LiveSlots(fuse)) && ToSet(LiveSlots(fuse)) == ClearBits(fuse)
    ensures |LiveSlots(fuse)| == |ClearBits(fuse)|
  {
    LiveFromAscends(fuse, 0);
    forall s: int
      ensures s in ToSet(LiveSlots(fuse)) <==> s in ClearBits(fuse)
    {
      if 0 <= s < 8 {
        LiveFromMembers(fuse, 0, s);
        FusedIsBit(fuse, s);
      } else {
        assert s in LiveSlots(fuse) ==> 0 <= s < SLOTS_PER_CCD;
      }
    }
    StrictCardinality(LiveSlots(fuse));
  }

  // ----- one CCD -----

  lemma WindowsOfOne(ids: seq<int>)
    requires ids != []
    ensures |Windows(ids)| == 1 <==> OneWindowOnly(ids)
  {
    if |Windows(ids)| == 1 {
      forall i, j | 0 <= i < |ids| && 0 <= j < |ids|
        ensures ids[i] / 8 == ids[j] / 8
      {
        OneWindow(ids, i, j);
      }
    }
    if OneWindowOnly(ids) {
      assert ids[0] in ids;
      assert Windows(ids) == {ids[0] / 8};
    }
  }

  lemma PrefixResidues(ids: seq<int>)
    ensures Residues(ids) == Prefix(|ids|) <==> forall i :: 0 <= i < |ids| ==> ids[i] % 8 == i
    ensures |Residues(ids)| == |ids| && forall i :: 0 <= i < |ids| ==> Residues(ids)[i] == ids[i] % 8
  {
    PrefixAt(|ids|);
    if ids != [] {
      ResiduesAt(ids, 0);
    }
    forall i | 0 <= i < |ids|
      ensures Residues(ids)[i] == ids[i] % 8
    {
      ResiduesAt(ids, i);
    }
    if forall i :: 0 <= i < |ids| ==> ids[i] % 8 == i {
      assert Residues(ids) == Prefix(|ids|);
    }
  }

  /** The numbering is believed exactly where it shows the slots, and then each id's own
      residue is its slot. */
  lemma DerivedIffShown(ids: seq<int>)
    requires ids != []
    ensures DeriveGroupSlots(ids, true).Some? <==> Shown(ids)
    ensures Shown(ids) ==> DeriveGroupSlots(ids, true).value == Residues(ids)
  {
    WindowsOfOne(ids);
    PrefixResidues(ids);
  }

  lemma FuseIffCounted(fuseAddr: Option<int>, smn: Smn, ccd: int, want: nat)
    ensures FuseGroupSlots(fuseAddr, smn, ccd, want).Some? <==> Counted(fuseAddr, smn, ccd, want)
    ensures FuseGroupSlots(fuseAddr, smn, ccd, want).Some? ==>
      var slots := FuseGroupSlots(fuseAddr, smn, ccd, want).value;
      Strict(slots) && ToSet(slots) == ClearBits(smn.registers[fuseAddr.value + ccd * 0x200_0000])
  {
    if fuseAddr.Some? && smn.readable {
      var address := fuseAddr.value + ccd * 0x200_0000;
      if address in smn.registers {
        var fuse := smn.registers[address];
        LiveAreClear(fuse);
        assert Counted(fuseAddr, smn, ccd, want) <==> |ClearBits(fuse)| == want;
      }
    }
  }

  /** A CCD is located exactly by its numbering or by a fuse that counts its cores; where
      its ids show their slots the fuse is never asked. */
  lemma LocatedIff(fuseAddr: Option<int>, smn: Smn, ccd: int, ids: seq<int>)
    requires ids != []
    ensures GroupSlots(fuseAddr, smn, ccd, ids).Some? <==> Shown(ids) || Counted(fuseAddr, smn, ccd, |ids|)
    ensures Shown(ids) ==> GroupSlots(fuseAddr, smn, ccd, ids) == Some(Residues(ids))
    ensures !Shown(ids) && GroupSlots(fuseAddr, smn, ccd, ids).Some? ==>
      var slots := GroupSlots(fuseAddr, smn, ccd, ids).value;
      Strict(slots) && ToSet(slots) == ClearBits(smn.registers[fuseAddr.value + ccd * 0x200_0000])
  {
    DerivedIffShown(ids);
    FuseIffCounted(fuseAddr, smn, ccd, |ids|);
  }

  /** Eight cores of one window sit at slots 0 to 7 in order of id, whatever the fuse. */
  lemma FullWindowIsIdentity(fuseAddr: Option<int>, smn: Smn, ccd: int, ids: seq<int>)
    requires Strict(ids) && |ids| == 8 && OneWindowOnly(ids)
    ensures GroupSlots(fuseAddr, smn, ccd, ids) == Some([0, 1, 2, 3, 4, 5, 6, 7])
  {
    LocatedIff(fuseAddr, smn, ccd, ids);
    PrefixResidues(ids);
    forall i | 0 <= i < 8
      ensures Residues(ids)[i] == i
    {
      SpacedOut(ids, i);
    }
    assert Residues(ids) == [0, 1, 2, 3, 4, 5, 6, 7];
  }

  /** Eight ascending ids within a window of eight leave no gap. */
  lemma SpacedOut(ids: seq<int>, i: nat)
    requires Strict(ids) && |ids| == 8 && OneWindowOnly(ids) && i < 8
    ensures ids[i] == ids[0] + i && ids[i] % 8 == i
  {
    assert ids[0] / 8 == ids[7] / 8;
    assert ids[0] < ids[1] < ids[2] < ids[3] < ids[4] < ids[5] < ids[6] < ids[7];
  }

  // ----- the whole map -----

  ghost predicate Located(t: Topology, fuseAddr: Option<int>, smn: Smn) {
    forall k :: k in Ccds(t) ==> Shown(Group(t, k)) || Counted(fuseAddr, smn, k, |Group(t, k)|)
  }

  /** The cores of a CCD read off a fuse: the clear bits, in order of id. */
  ghost predicate InOrder(m: CoreMap, ids: seq<int>, slots: set<int>) {
    && (forall c :: c in ids ==> c in m)
    && (forall s :: s in slots <==> exists i :: 0 <= i < |ids| && m[ids[i]].1 == s)
    && (forall i, j :: 0 <= i < j < |ids| ==> m[ids[i]].1 < m[ids[j]].1)
  }

  /** Every core is in its own CCD, at the slot its id or its CCD's fuse shows. */
  ghost predicate Discovered(m: CoreMap, t: Topology, fuseAddr: Option<int>, smn: Smn) {
    && m.Keys == t.cores.Keys
    && (forall c :: c in m ==>
          m[c].0 == if forall d :: d in t.cores ==> t.cores[d].Some? then t.cores[c].value else c / 8)
    && (forall k :: k in Ccds(t) && Shown(Group(t, k)) ==> forall c :: c in Group(t, k) ==> c in m && m[c].1 == c % 8)
    && (forall k :: k in Ccds(t) && !Shown(Group(t, k)) ==>
          && Counted(fuseAddr, smn, k, |Group(t, k)|)
          && InOrder(m, Group(t, k), ClearBits(smn.registers[fuseAddr.value + k * 0x200_0000])))
  }

  lemma GroupNotEmpty(t: Topology, k: int)
    requires k in Ccds(t)
    ensures Group(t, k) != []
  {
    var c :| c in t.cores && CcdOf(t, c) == k;
    assert c in ToSet(Group(t, k));
  }

  lemma ShownIsDiscovered(m: CoreMap, t: Topology, fuseAddr: Option<int>, smn: Smn, k: int)
    requires Installs(m, t, fuseAddr, smn) && k in Ccds(t) && Shown(Group(t, k))
    ensures forall c :: c in Group(t, k) ==> c in m && m[c].1 == c % 8
  {
    var ids := Group(t, k);
    GroupNotEmpty(t, k);
    LocatedIff(fuseAddr, smn, k, ids);
    PrefixResidues(ids);
    forall c | c in ids
      ensures c in m && m[c].1 == c % 8
    {
      var i :| 0 <= i < |ids| && ids[i] == c;
    }
  }

  lemma CountedIsDiscovered(m: CoreMap, t: Topology, fuseAddr: Option<int>, smn: Smn, k: int)
    requires Installs(m, t, fuseAddr, smn) && k in Ccds(t) && !Shown(Group(t, k))
    ensures Counted(fuseAddr, smn, k, |Group(t, k)|)
    ensures InOrder(m, Group(t, k), ClearBits(smn.registers[fuseAddr.value + k * 0x200_0000]))
  {
    var ids := Group(t, k);
    GroupNotEmpty(t, k);
    LocatedIff(fuseAddr, smn, k, ids);
    var slots := GroupSlots(fuseAddr, smn, k, ids).value;
    forall c | c in ids
      ensures c in m
    {
      var i :| 0 <= i < |ids| && ids[i] == c;
    }
    forall s | s in ToSet(slots)
      ensures exists i :: 0 <= i < |ids| && m[ids[i]].1 == s
    {
      var i :| 0 <= i < |slots| && slots[i] == s;
      assert m[ids[i]].1 == s;
    }
    forall i | 0 <= i < |ids|
      ensures m[ids[i]].1 in ToSet(slots)
    {
      assert m[ids[i]].1 == slots[i];
    }
  }

  lemma InstalledIsDiscovered(m: CoreMap, t: Topology, fuseAddr: Option<int>, smn: Smn)
    requires Installs(m, t, fuseAddr, smn)
    ensures Discovered(m, t, fuseAddr, smn)
  {
    InstalledMapIsAddressable(m, t, fuseAddr, smn);
    forall k | k in Ccds(t)
      ensures Shown(Group(t, k)) ==> forall c :: c in Group(t, k) ==> c in m && m[c].1 == c % 8
      ensures !Shown(Group(t, k)) ==> Counted(fuseAddr, smn, k, |Group(t, k)|)
      ensures !Shown(Group(t, k)) ==>
        InOrder(m, Group(t, k), ClearBits(smn.registers[fuseAddr.value + k * 0x200_0000]))
    {
      if Shown(Group(t, k)) {
        ShownIsDiscovered(m, t, fuseAddr, smn, k);
      } else {
        CountedIsDiscovered(m, t, fuseAddr, smn, k);
      }
    }
  }

  lemma UnlocatedCcd(t: Topology, fuseAddr: Option<int>, smn: Smn, k: int)
    requires k in Ccds(t) && GroupSlots(fuseAddr, smn, k, Group(t, k)).None?
    ensures !Located(t, fuseAddr, smn)
  {
    AllLocatedIff(t, fuseAddr, smn);
  }

  lemma AllLocatedIff(t: Topology, fuseAddr: Option<int>, smn: Smn)
    ensures Located(t, fuseAddr, smn) <==>
      forall k :: k in Ccds(t) ==> GroupSlots(fuseAddr, smn, k, Group(t, k)).Some?
  {
    forall k | k in Ccds(t)
      ensures GroupSlots(fuseAddr, smn, k, Group(t, k)).Some? <==>
        Shown(Group(t, k)) || Counted(fuseAddr, smn, k, |Group(t, k)|)
    {
      GroupNotEmpty(t, k);
      LocatedIff(fuseAddr, smn, k, Group(t, k));
    }
  }
}
