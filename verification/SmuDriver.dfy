/** The per-core offset driver over the SMU: discovery, guarded reads and writes,
    backup and restore. */
module SmuDriver {
  import opened Wrappers
  import opened CoreSets
  import opened SmuCommands
  import opened SmuTopology
  import opened SmuDiscovery

  /** What the driver needs to know of a CPU generation. */
  datatype Commands = Commands(hasCo: bool, uniform: bool, coMin: int, coMax: int, fuseAddr: Option<int>)

  datatype MapError = InProgress | LayoutUnproven | GroupTooLarge | CoresOffline | FuseUnusable

  /** OutOfRange is the error raised for a value outside the generation's range. */
  datatype SetOutcome = Done | Refused | OutOfRange

  datatype RestoreOutcome = Raised | Report(ok: bool, failed: seq<int>)

  function Combine(upper: nat, margin: nat): nat {
    upper * 0x1_0000 + margin
  }

  type Cells = map<(int, int), int>

  /** The margin a word addresses; a slot that was never written answers zero, live or not. */
  function CellAt(cells: Cells, word: nat): int {
    var at := (WordCcd(word), WordSlot(word));
    if at in cells then cells[at] else 0
  }

  /** Some margin, wanted or not, at the address a word names. */
  function Stored(cells: Cells, word: nat, margin: int): Cells {
    cells[(WordCcd(word), WordSlot(word)) := margin]
  }

  function Written(cells: Cells, word: nat): Cells {
    Stored(cells, word, WordMargin(word))
  }

  /** Nothing changed but perhaps the margin at the address a word names. */
  ghost predicate TouchesOnly(before: Cells, after: Cells, word: nat) {
    after == before || exists margin :: after == Stored(before, word, margin)
  }

  /** What a read of an address returns; a word wider than 32 bits cannot be sent. */
  function ReadCell(cells: Cells, core: nat, ccd: Option<nat>, slot: Option<nat>): Option<int> {
    var word := EncodeCoArg(core, 0, ccd, slot);
    if word >= WORD_LIMIT then None else Some(DecodeCoArg(CellAt(cells, word) % 0x1_0000))
  }

  /** The margin held at a (CCD, slot); one that was never written is zero. */
  function MarginAt(cells: Cells, at: (int, int)): int {
    if at in cells then cells[at] else 0
  }

  /** A number and the 16-bit two's complement it is stored as. */
  predicate SameMargin(value: int, stored: int) {
    Int16(value) && (value - stored) % 0x1_0000 == 0
  }

  /** Only this (CCD, slot) may have changed. */
  ghost predicate OnlyAt(before: Cells, after: Cells, at: (int, int)) {
    forall other :: other != at ==>
      (other in after <==> other in before) && MarginAt(after, other) == MarginAt(before, other)
  }

  /** A read returns the cell it names, where the address fits the word. */
  lemma ReadsItsCell(cells: Cells, core: nat, ccd: Option<nat>, slot: Option<nat>)
    requires slot.Some? ==> slot.value < 16
    ensures var at := (if ccd.Some? then ccd.value else core / 8, if slot.Some? then slot.value else core % 8);
      var r := ReadCell(cells, core, ccd, slot);
      && (r.Some? <==> at.0 < 16)
      && (r.Some? ==> SameMargin(r.value, MarginAt(cells, at)))
  {
    var c, s := if ccd.Some? then ccd.value else core / 8, if slot.Some? then slot.value else core % 8;
    WordCarriesFields(core, c, s, 0);
    var word := EncodeCoArg(core, 0, ccd, slot);
    assert word == EncodeCoArg(core, 0, Some(c), Some(s));
    if c < 16 {
      assert CellAt(cells, word) == MarginAt(cells, (c, s));
      DecodedIsSame(MarginAt(cells, (c, s)));
    }
  }

  lemma DecodedIsSame(stored: int)
    ensures SameMargin(DecodeCoArg(stored % 0x1_0000), stored)
  {
    MarginIsReduced(stored);
    MarginRoundTrip(stored);
    var q := stored / 0x1_0000;
    assert stored == q * 0x1_0000 + stored % 0x1_0000;
  }

  /** A command touches the cell it names and no other. */
  lemma TouchesItsCell(before: Cells, after: Cells, core: nat, value: int, ccd: Option<nat>, slot: Option<nat>)
    requires slot.Some? ==> slot.value < 16
    requires EncodeCoArg(core, value, ccd, slot) < WORD_LIMIT
    requires TouchesOnly(before, after, EncodeCoArg(core, value, ccd, slot))
    ensures var at := (if ccd.Some? then ccd.value else core / 8, if slot.Some? then slot.value else core % 8);
      OnlyAt(before, after, at)
  {
    var c, s := if ccd.Some? then ccd.value else core / 8, if slot.Some? then slot.value else core % 8;
    WordCarriesFields(core, c, s, value);
    assert EncodeCoArg(core, value, ccd, slot) == EncodeCoArg(core, value, Some(c), Some(s));
  }

  lemma CellAfterStore(cells: Cells, word: nat, margin: int, ask: nat)
    ensures CellAt(Stored(cells, word, margin), ask) ==
      if WordCcd(ask) == WordCcd(word) && WordSlot(ask) == WordSlot(word) then margin else CellAt(cells, ask)
  {
  }

  lemma MarginIsReduced(value: int)
    ensures value % 0x1_0000 % 0x1_0000 == value % 0x1_0000
  {
  }

  /** A written word is found again at the address it names. */
  lemma ReadBack(cells: Cells, core: nat, value: int, a: (nat, nat))
    requires a.1 < 16 && EncodeCoArg(core, value, Some(a.0), Some(a.1)) < WORD_LIMIT
    ensures ReadCell(Written(cells, EncodeCoArg(core, value, Some(a.0), Some(a.1))), core, Some(a.0), Some(a.1)) ==
      Some(DecodeCoArg(value % 0x1_0000))
  {
    var word, ask := EncodeCoArg(core, value, Some(a.0), Some(a.1)), EncodeCoArg(core, 0, Some(a.0), Some(a.1));
    WordCarriesFields(core, a.0, a.1, value);
    WordCarriesFields(core, a.0, a.1, 0);
    SameAddressReads(cells, word, ask, value);
  }

  lemma SameAddressReads(cells: Cells, word: nat, ask: nat, value: int)
    requires WordCcd(ask) == WordCcd(word) && WordSlot(ask) == WordSlot(word) && WordMargin(word) == value % 0x1_0000
    ensures CellAt(Written(cells, word), ask) % 0x1_0000 == value % 0x1_0000
  {
    CellAfterStore(cells, word, WordMargin(word), ask);
    MarginIsReduced(value);
  }

  /** Whatever a command leaves at its own address, it is read at no other. */
  lemma OthersUntouched(cells: Cells, after: Cells, core: nat, other: nat, value: int, a: (nat, nat), b: (nat, nat))
    requires a.1 < 16 && b.1 < 16 && a != b
    requires EncodeCoArg(core, value, Some(a.0), Some(a.1)) < WORD_LIMIT
    requires TouchesOnly(cells, after, EncodeCoArg(core, value, Some(a.0), Some(a.1)))
    ensures ReadCell(after, other, Some(b.0), Some(b.1)) == ReadCell(cells, other, Some(b.0), Some(b.1))
  {
    if after != cells {
      var word := EncodeCoArg(core, value, Some(a.0), Some(a.1));
      var margin :| after == Stored(cells, word, margin);
      WordCarriesFields(core, a.0, a.1, value);
      WordCarriesFields(other, b.0, b.1, 0);
      CellAfterStore(cells, word, margin, EncodeCoArg(other, 0, Some(b.0), Some(b.1)));
    }
  }

  /** A faithful write is read back exactly when it fits 16 bits, and reaches its own
      core only. */
  lemma WriteIsLocal(cells: Cells, core: nat, other: nat, value: int, a: (nat, nat), b: (nat, nat))
    requires a.1 < 16 && b.1 < 16
    requires EncodeCoArg(core, value, Some(a.0), Some(a.1)) < WORD_LIMIT
    ensures var after := Written(cells, EncodeCoArg(core, value, Some(a.0), Some(a.1)));
      && (ReadCell(after, core, Some(a.0), Some(a.1)) == Some(value) <==> Int16(value))
      && (a != b ==> ReadCell(after, other, Some(b.0), Some(b.1)) == ReadCell(cells, other, Some(b.0), Some(b.1)))
  {
    ReadBack(cells, core, value, a);
    MarginRoundTrip(value);
    if a != b {
      var word := EncodeCoArg(core, value, Some(a.0), Some(a.1));
      OthersUntouched(cells, Written(cells, word), core, other, value, a, b);
    }
  }

  /** One margin per (CCD, slot), behind a mailbox that may reject a command, or carry
      out a rejected one, or store something else than it was told. */
  class Hardware {
    /** The mailbox does what every well-formed command says and its files are writable. */
    const faithful: bool
    var cells: Cells

    constructor (faithful: bool)
      ensures this.faithful == faithful
    {
      this.faithful := faithful;
      cells := map[];
    }

    method CheckWritable() returns (ok: bool)
      ensures faithful ==> ok
    {
      ok := *;
      ok := ok || faithful;
    }

    /** Write one margin, as far as the mailbox likes. A word wider than 32 bits never
        reaches it. */
    method SetCommand(word: nat) returns (ok: bool)
      modifies this
      ensures TouchesOnly(old(cells), cells, word)
      ensures word >= WORD_LIMIT ==> !ok && cells == old(cells)
      ensures !ok ==> cells == old(cells) || cells == Written(old(cells), word)
      ensures faithful && word < WORD_LIMIT ==> ok && cells == Written(old(cells), word)
    {
      if word >= WORD_LIMIT {
        return false;
      }
      if faithful {
        cells := Written(cells, word);
        return true;
      }
      var reached: bool, stored: int := *, *;
      ok := *;
      if reached {
        cells := Stored(cells, word, if ok then stored else WordMargin(word));
      }
    }

    /** Read one margin; the upper half of the answer means nothing. */
    method GetCommand(word: nat) returns (response: Option<nat>)
      ensures response.Some? ==>
        word < WORD_LIMIT && WordMargin(response.value) == CellAt(cells, word) % 0x1_0000
      ensures faithful && word < WORD_LIMIT ==> response.Some?
    {
      var accept: bool := *;
      if word < WORD_LIMIT && (accept || faithful) {
        var upper: nat := *;
        var margin: nat := CellAt(cells, word) % 0x1_0000;
        Quotient(upper, 0x1_0000, margin);
        return Some(Combine(upper, margin));
      }
      return None;
    }
  }

  lemma NaturalIds(t: Topology, ids: seq<int>)
    requires Natural(t) && ToSet(ids) == t.cores.Keys
    ensures forall i :: 0 <= i < |ids| ==> ids[i] >= 0
  {
    assert forall i :: 0 <= i < |ids| ==> ids[i] in ToSet(ids);
  }

  ghost predicate Natural(t: Topology) {
    forall c :: c in t.cores ==> c >= 0 && (t.cores[c].Some? ==> t.cores[c].value >= 0)
  }

  predicate Captured(entry: (nat, Option<int>), core: int) {
    entry.0 == core && entry.1.Some?
  }

  /** The entries that were read, by core. */
  method Readable(offsets: seq<(nat, Option<int>)>) returns (readable: map<int, int>)
    ensures forall c :: c in readable <==> exists i :: 0 <= i < |offsets| && Captured(offsets[i], c)
    ensures forall c :: c in readable ==> exists i :: 0 <= i < |offsets| && offsets[i] == (c, Some(readable[c]))
  {
    readable := map[];
    for i := 0 to |offsets|
      invariant forall c :: c in readable <==> exists j :: 0 <= j < i && Captured(offsets[j], c)
      invariant forall c :: c in readable ==> exists j :: 0 <= j < i && offsets[j] == (c, Some(readable[c]))
    {
      if offsets[i].1.Some? {
        readable := readable[offsets[i].0 := offsets[i].1.value];
      }
    }
  }

  class RyzenSMU {
    const commands: Commands
    const dryRun: bool
    const hw: Hardware
    var topologyCcd: map<int, int>
    var coreMap: Option<CoreMap>
    var coreMapError: Option<MapError>
    var knownCoreIds: Option<seq<nat>>
    var backup: Option<seq<(nat, Option<int>)>>

    /** An installed map is injective and addresses real fields. */
    ghost predicate Valid()
      reads this
    {
      && (coreMap.Some? ==> Addressable(coreMap.value) && forall c :: c in coreMap.value ==> coreMap.value[c].0 >= 0)
      && (forall c :: c in topologyCcd ==> topologyCcd[c] >= 0)
    }

    constructor (commands: Commands, dryRun: bool, hw: Hardware)
      ensures Valid() && this.commands == commands && this.dryRun == dryRun && this.hw == hw
      ensures coreMap.None? && coreMapError.None? && backup.None? && knownCoreIds.None?
    {
      this.commands, this.dryRun, this.hw := commands, dryRun, hw;
      topologyCcd, coreMap, coreMapError, knownCoreIds, backup := map[], None, None, None, None;
    }

    // ----- discovery -----

    /** Discovery runs only where the eight-slot layout is declared. */
    predicate Applies(t: Topology) {
      t.cores != map[] && commands.hasCo && commands.uniform
    }

    ghost predicate Discoverable(t: Topology, smn: Smn) {
      && t.layoutKnown && !TooLarge(t) && t.allOnline == Some(true)
      && Located(t, commands.fuseAddr, smn)
    }

    /** What stands in the way of a map, the first of them in the order they are looked at. */
    ghost function Obstacle(t: Topology): MapError {
      if !t.layoutKnown then LayoutUnproven
      else if TooLarge(t) then GroupTooLarge
      else if t.allOnline != Some(true) then CoresOffline
      else FuseUnusable
    }

    /** Discover how OS core ids map onto slots; fails closed. */
    method SetTopology(t: Topology, smn: Smn)
      requires Natural(t)
      modifies this`topologyCcd, this`coreMap, this`coreMapError, this`knownCoreIds
      ensures Valid()
      ensures t.cores == map[] <==> knownCoreIds.None?
      ensures knownCoreIds.Some? ==> Strict(knownCoreIds.value) && ToSet(knownCoreIds.value) == t.cores.Keys
      ensures coreMap.Some? ==> Installs(coreMap.value, t, commands.fuseAddr, smn) && coreMapError.None?
      ensures coreMap.Some? ==> Discovered(coreMap.value, t, commands.fuseAddr, smn)
      ensures forall c :: c in topologyCcd <==> c in t.cores && t.cores[c].Some?
      ensures forall c :: c in topologyCcd ==> topologyCcd[c] == t.cores[c].value
      ensures t.cores != map[] && commands.hasCo && commands.uniform ==>
        && (coreMap.Some? <==> Discoverable(t, smn))
        && (coreMap.None? <==> coreMapError.Some?)
        && (coreMapError.Some? ==> coreMapError.value == Obstacle(t))
      ensures !(t.cores != map[] && commands.hasCo && commands.uniform) ==> coreMap.None? && coreMapError.None?
    {
      topologyCcd := map c | c in t.cores && t.cores[c].Some? :: t.cores[c].value;
      coreMap := None;
      coreMapError := Some(InProgress);
      var ids := Ascend(t.cores.Keys);
      if t.cores == map[] {
        knownCoreIds := None;
      } else {
        NaturalIds(t, ids);
        var naturals: seq<nat> := ids;
        knownCoreIds := Some(naturals);
      }
      if !Applies(t) {
        coreMapError := None;
        return;
      }
      if !t.layoutKnown {
        coreMapError := Some(LayoutUnproven);
        return;
      }
      var groups := GroupCores(t, ids);
      if groups.None? {
        coreMapError := Some(GroupTooLarge);
        return;
      }
      if t.allOnline != Some(true) {
        coreMapError := Some(CoresOffline);
        return;
      }
      var m := MapGroups(t, groups.value, commands.fuseAddr, smn);
      if m.None? {
        coreMapError := Some(FuseUnusable);
        return;
      }
      InstalledMapIsAddressable(m.value, t, commands.fuseAddr, smn);
      InstalledIsDiscovered(m.value, t, commands.fuseAddr, smn);
      coreMap := m;
      coreMapError := None;
    }

    // ----- addressing -----

    /** The (CCD, slot) to address, or None when the access must be refused. */
    function CoAddress(core: nat): Option<(Option<nat>, Option<nat>)>
      requires Valid()
      reads this
    {
      if coreMapError.Some? then None
      else if coreMap.Some? then
        (if core in coreMap.value then Some((Some(coreMap.value[core].0), Some(coreMap.value[core].1))) else None)
      else Some((if core in topologyCcd then Some(topologyCcd[core]) else None, None))
    }

    /** What a read of the core that goes through returns. */
    function Reading(core: nat): Option<int>
      requires Valid()
      reads this, hw
    {
      var address := CoAddress(core);
      if !commands.hasCo || address.None? then None
      else ReadCell(hw.cells, core, address.value.0, address.value.1)
    }

    /** Where a core's offset lives: the slot discovery found for it, or the one its id
        and its L3 group name on a generation discovery does not apply to. */
    ghost function Place(core: nat): Option<(int, int)>
      reads this
    {
      if coreMapError.Some? || (coreMap.Some? && core !in coreMap.value) then None
      else if coreMap.Some? then Some(coreMap.value[core])
      else Some((if core in topologyCcd then topologyCcd[core] else core / 8, core % 8))
    }

    /** What is addressed is where the offset lives. */
    lemma AddressIsPlace(core: nat)
      requires Valid()
      ensures CoAddress(core).Some? <==> Place(core).Some?
      ensures Reading(core).Some? <==> commands.hasCo && Place(core).Some? && Place(core).value.0 < 16
      ensures Reading(core).Some? ==> SameMargin(Reading(core).value, MarginAt(hw.cells, Place(core).value))
    {
      var address := CoAddress(core);
      if address.Some? {
        ReadsItsCell(hw.cells, core, address.value.0, address.value.1);
      }
    }

    method GetCoOffset(core: nat) returns (value: Option<int>)
      requires Valid()
      ensures value.Some? && coreMap.Some? ==> core in coreMap.value
      ensures value.Some? && coreMap.Some? ==> SameMargin(value.value, MarginAt(hw.cells, coreMap.value[core]))
      ensures value.Some? && coreMap.None? ==>
        var ccd := if core in topologyCcd then topologyCcd[core] else core / 8;
        SameMargin(value.value, MarginAt(hw.cells, (ccd, core % 8)))
      ensures hw.faithful ==> (value.Some? <==> commands.hasCo && Place(core).Some? && Place(core).value.0 < 16)
      ensures value.Some? ==> value == Reading(core)
      ensures hw.faithful ==> value == Reading(core)
    {
      AddressIsPlace(core);
      if !commands.hasCo {
        return None;
      }
      var address := CoAddress(core);
      if address.None? {
        return None;
      }
      var word := EncodeCoArg(core, 0, address.value.0, address.value.1);
      var response := hw.GetCommand(word);
      if response.None? {
        return None;
      }
      DecodeReadsTheMargin(response.value);
      return Some(DecodeCoArg(response.value));
    }

    // ----- writing -----

    predicate InRange(value: int) {
      commands.coMin <= value <= commands.coMax
    }

    /** The core has a discovered slot the mailbox can express. */
    predicate Reachable(core: int)
      reads this
    {
      coreMapError.None? && coreMap.Some? && core in coreMap.value && coreMap.value[core].0 < 16
    }

    /** Set one core's offset: guarded by range, address, dry run and permission, then
        written and read back. */
    method SetCoOffset(core: nat, value: int) returns (r: SetOutcome)
      requires Valid()
      modifies hw
      ensures r == OutOfRange <==> commands.hasCo && !(commands.coMin <= value <= commands.coMax)
      ensures r == Done && !dryRun && coreMap.Some? ==> core in coreMap.value
      ensures r == Done && !dryRun && coreMap.Some? ==> SameMargin(value, MarginAt(hw.cells, coreMap.value[core]))
      ensures r == Done && !dryRun && coreMap.None? ==>
        var ccd := if core in topologyCcd then topologyCcd[core] else core / 8;
        SameMargin(value, MarginAt(hw.cells, (ccd, core % 8)))
      ensures Place(core).None? ==> hw.cells == old(hw.cells)
      ensures Place(core).Some? ==> OnlyAt(old(hw.cells), hw.cells, Place(core).value)
      ensures r == Done && !dryRun ==> Reading(core) == Some(value)
      ensures dryRun || r == OutOfRange || !commands.hasCo || CoAddress(core).None? ==> hw.cells == old(hw.cells)
      ensures commands.hasCo && InRange(value) && CoAddress(core).None? ==> r == Refused
      ensures coreMap.Some? ==> forall d: nat :: d != core ==> Reading(d) == old(Reading(d))
      ensures hw.faithful && commands.hasCo && InRange(value) && Int16(value) && Reachable(core) ==> r == Done
    {
      if !commands.hasCo {
        return Refused;
      }
      if !(commands.coMin <= value <= commands.coMax) {
        return OutOfRange;
      }
      var address := CoAddress(core);
      if address.None? {
        return Refused;
      }
      if dryRun {
        return Done;
      }
      var writable := hw.CheckWritable();
      if !writable {
        return Refused;
      }
      var word := EncodeCoArg(core, value, address.value.0, address.value.1);
      WriteReaches(core, value);
      var accepted := hw.SetCommand(word);
      if word < WORD_LIMIT {
        TouchesItsCell(old(hw.cells), hw.cells, core, value, address.value.0, address.value.1);
      }
      forall d: nat | coreMap.Some? && d != core
        ensures Reading(d) == old(Reading(d))
      {
        assert Reading(d) == ReadingFrom(hw.cells, d);
      }
      if !accepted {
        return Refused;
      }
      var readback := GetCoOffset(core);
      if readback != Some(value) {
        return Refused;
      }
      return Done;
    }

    /** What writing through the installed map does to every core's reading. */
    lemma WriteReaches(core: nat, value: int)
      requires Valid() && CoAddress(core).Some?
      ensures Reachable(core) ==>
        EncodeCoArg(core, value, CoAddress(core).value.0, CoAddress(core).value.1) < WORD_LIMIT
      ensures coreMap.Some? ==>
        var word := EncodeCoArg(core, value, CoAddress(core).value.0, CoAddress(core).value.1);
        word < WORD_LIMIT ==>
          && (Int16(value) ==> commands.hasCo ==> ReadingFrom(Written(hw.cells, word), core) == Some(value))
          && forall d: nat, after :: d != core && TouchesOnly(hw.cells, after, word) ==>
               ReadingFrom(after, d) == Reading(d)
    {
      if coreMap.Some? {
        var at := coreMap.value[core];
        WordCarriesFields(core, at.0, at.1, value);
        var word := EncodeCoArg(core, value, Some(at.0), Some(at.1));
        if word < WORD_LIMIT {
          WriteIsLocal(hw.cells, core, core, value, at, at);
          forall d: nat, after | d != core && TouchesOnly(hw.cells, after, word)
            ensures ReadingFrom(after, d) == Reading(d)
          {
            if CoAddress(d).Some? {
              OthersUntouched(hw.cells, after, core, d, value, at, coreMap.value[d]);
            }
          }
        }
      }
    }

    /** The reading if the hardware held `cells`. */
    function ReadingFrom(cells: Cells, core: nat): Option<int>
      requires Valid()
      reads this
    {
      var address := CoAddress(core);
      if !commands.hasCo || address.None? then None
      else ReadCell(cells, core, address.value.0, address.value.1)
    }

    // ----- backup and restore -----

    /** The cores a backup covers. */
    function BackupIds(numCores: nat): seq<nat>
      reads this
    {
      if knownCoreIds.Some? then knownCoreIds.value else seq(numCores, i => i)
    }

    /** Each known core's offset, or a gap where it cannot be read. */
    method GetAllCoOffsets(numCores: nat) returns (offsets: seq<(nat, Option<int>)>)
      requires Valid()
      ensures knownCoreIds.None? ==> |offsets| == numCores && forall i :: 0 <= i < numCores ==> offsets[i].0 == i
      ensures knownCoreIds.Some? ==> |offsets| == |knownCoreIds.value|
      ensures knownCoreIds.Some? ==> forall i :: 0 <= i < |offsets| ==> offsets[i].0 == knownCoreIds.value[i]
      ensures |offsets| == |BackupIds(numCores)|
      ensures forall i :: 0 <= i < |offsets| ==>
        && offsets[i].0 == BackupIds(numCores)[i]
        && (offsets[i].1.Some? ==> offsets[i].1 == Reading(BackupIds(numCores)[i]))
        && (hw.faithful ==> offsets[i].1 == Reading(BackupIds(numCores)[i]))
    {
      var ids := BackupIds(numCores);
      offsets := [];
      for i := 0 to |ids|
        invariant |offsets| == i
        invariant forall j :: 0 <= j < i ==>
          && offsets[j].0 == ids[j]
          && (offsets[j].1.Some? ==> offsets[j].1 == Reading(ids[j]))
          && (hw.faithful ==> offsets[j].1 == Reading(ids[j]))
      {
        var value := GetCoOffset(ids[i]);
        offsets := offsets + [(ids[i], value)];
      }
    }

    /** Capture every core's offset; an unreadable one is captured as missing, and left
        out of the result. */
    method BackupCoOffsets(numCores: nat) returns (readable: map<int, int>)
      requires Valid()
      modifies this`backup
      ensures backup.Some? && |backup.value| == |BackupIds(numCores)|
      ensures forall i :: 0 <= i < |backup.value| ==>
        && backup.value[i].0 == BackupIds(numCores)[i]
        && (backup.value[i].1.Some? ==> backup.value[i].1 == Reading(BackupIds(numCores)[i]))
        && (hw.faithful ==> backup.value[i].1 == Reading(BackupIds(numCores)[i]))
      ensures forall c :: c in readable <==> exists i :: 0 <= i < |backup.value| && Captured(backup.value[i], c)
      ensures forall c: nat :: c in readable ==> Reading(c) == Some(readable[c])
    {
      var offsets := GetAllCoOffsets(numCores);
      backup := Some(offsets);
      readable := Readable(offsets);
    }

    ghost predicate GoodBackup()
      reads this
    {
      backup.Some? ==>
        forall i, j :: 0 <= i < j < |backup.value| ==> backup.value[i].0 != backup.value[j].0
    }

    /** Every core was captured, with a 16-bit margin, and has a slot to write to. */
    ghost predicate Restorable()
      reads this
    {
      && backup.Some?
      && forall i :: 0 <= i < |backup.value| ==>
           backup.value[i].1.Some? && Int16(backup.value[i].1.value) && Reachable(backup.value[i].0)
    }

    /** A captured margin that cannot be asked for. */
    ghost predicate BeyondRange(captured: Option<int>)
      reads this
    {
      captured.Some? && !InRange(captured.value)
    }

    /** Put every captured offset back; the report names each core that could not be. */
    method RestoreCoOffsets() returns (r: RestoreOutcome)
      requires Valid() && GoodBackup()
      modifies hw
      ensures backup.None? ==> r == Report(false, []) && hw.cells == old(hw.cells)
      ensures backup.Some? && r.Report? ==> (r.ok <==> r.failed == [])
      ensures backup.Some? ==> (r.Raised? <==> commands.hasCo && exists k :: k in backup.value && BeyondRange(k.1))
      ensures backup.Some? && r.Report? && !dryRun && coreMap.Some? ==>
        forall i :: 0 <= i < |backup.value| && backup.value[i].0 !in r.failed ==>
          backup.value[i].1.Some? && Reading(backup.value[i].0) == backup.value[i].1
      ensures r.Report? && hw.faithful && commands.hasCo && Restorable() ==> r.ok
      ensures coreMap.Some? && backup.Some? ==>
        forall d: nat :: (forall i :: 0 <= i < |backup.value| ==> backup.value[i].0 != d) ==>
          Reading(d) == old(Reading(d))
    {
      if backup.None? {
        return Report(false, []);
      }
      var failed: seq<int> := [];
      var saved := backup.value;
      for i := 0 to |saved|
        invariant !dryRun && coreMap.Some? ==>
          forall j :: 0 <= j < i && saved[j].0 !in failed ==> saved[j].1.Some? && Reading(saved[j].0) == saved[j].1
        invariant forall j :: 0 <= j < i && saved[j].1.Some? ==> !commands.hasCo || InRange(saved[j].1.value)
        invariant hw.faithful && commands.hasCo && Restorable() ==> failed == []
        invariant coreMap.Some? ==>
          forall d: nat :: (forall j :: 0 <= j < |saved| ==> saved[j].0 != d) ==> Reading(d) == old(Reading(d))
      {
        if saved[i].1.None? {
          failed := failed + [saved[i].0];
        } else {
          var outcome := SetCoOffset(saved[i].0, saved[i].1.value);
          if outcome == OutOfRange {
            return Raised;
          }
          if outcome != Done {
            failed := failed + [saved[i].0];
          }
        }
      }
      return Report(failed == [], failed);
    }
  }

  /** A tuning session: back up, write what you like, restore. Nothing remains of the
      writes as long as the offsets found were in range. */
  method TuneThenRestore(smu: RyzenSMU, numCores: nat, writes: seq<(nat, int)>) returns (r: RestoreOutcome)
    requires smu.Valid() && smu.hw.faithful && smu.commands.hasCo && !smu.dryRun
    requires smu.knownCoreIds.Some? && Strict(smu.knownCoreIds.value)
    requires forall i :: 0 <= i < |smu.knownCoreIds.value| ==>
      && smu.Reachable(smu.knownCoreIds.value[i])
      && smu.Reading(smu.knownCoreIds.value[i]).Some?
      && smu.InRange(smu.Reading(smu.knownCoreIds.value[i]).value)
      && Int16(smu.Reading(smu.knownCoreIds.value[i]).value)
    modifies smu`backup, smu.hw
    ensures r == Report(true, [])
    ensures forall i :: 0 <= i < |smu.knownCoreIds.value| ==>
      smu.Reading(smu.knownCoreIds.value[i]) == old(smu.Reading(smu.knownCoreIds.value[i]))
  {
    var saved := smu.BackupCoOffsets(numCores);
    for i := 0 to |writes|
      invariant smu.backup.Some? && |smu.backup.value| == |smu.knownCoreIds.value|
      invariant forall j :: 0 <= j < |smu.backup.value| ==>
        && smu.backup.value[j].0 == smu.knownCoreIds.value[j]
        && smu.backup.value[j].1 == old(smu.Reading(smu.knownCoreIds.value[j]))
    {
      var outcome := smu.SetCoOffset(writes[i].0, writes[i].1);
    }
    r := smu.RestoreCoOffsets();
  }

  // ----- discovery loops -----

  /** The cores of `seen` in one CCD, ascending. */
  ghost predicate IsGroup(group: seq<int>, t: Topology, seen: set<int>, ccd: int)
    requires seen <= t.cores.Keys
  {
    Strict(group) && forall c :: c in group <==> c in seen && CcdOf(t, c) == ccd
  }

  ghost predicate Grouped(groups: map<int, seq<int>>, t: Topology, seen: set<int>)
    requires seen <= t.cores.Keys
  {
    && (forall k :: k in groups ==> groups[k] != [] && IsGroup(groups[k], t, seen, k))
    && (forall c :: c in seen ==> CcdOf(t, c) in groups)
  }

  /** The cores of each CCD in ascending order; None is the refusal of a group larger
      than the eight-slot layout. */
  method GroupCores(t: Topology, ids: seq<int>) returns (result: Option<map<int, seq<int>>>)
    requires Strict(ids) && ToSet(ids) == t.cores.Keys
    ensures result.None? <==> TooLarge(t)
    ensures result.Some? ==> result.value.Keys == Ccds(t)
    ensures result.Some? ==> forall k :: k in result.value ==> result.value[k] == Group(t, k)
  {
    var byL3 := forall c :: c in t.cores ==> t.cores[c].Some?;
    var groups: map<int, seq<int>> := map[];
    ghost var seen: set<int> := {};
    for i := 0 to |ids|
      invariant seen == ToSet(ids[..i]) <= t.cores.Keys
      invariant Grouped(groups, t, seen)
    {
      var c := ids[i];
      SeenPrefix(t, ids, i);
      var key := if byL3 then t.cores[c].value else c / SLOTS_PER_CCD;
      GroupedStep(groups, t, seen, c);
      groups := groups[key := (if key in groups then groups[key] else []) + [c]];
      seen := seen + {c};
    }
    assert ids[..|ids|] == ids;
    GroupedAll(groups, t);
    assert TooLarge(t) <==> exists k :: k in groups && |groups[k]| > SLOTS_PER_CCD;
    if exists k :: k in groups && |groups[k]| > SLOTS_PER_CCD {
      return None;
    }
    return Some(groups);
  }

  lemma GroupedAll(groups: map<int, seq<int>>, t: Topology)
    requires Grouped(groups, t, t.cores.Keys)
    ensures groups.Keys == Ccds(t) && forall k :: k in groups ==> groups[k] == Group(t, k)
  {
    forall k | k in Ccds(t)
      ensures k in groups.Keys
    {
      var c :| c in t.cores && CcdOf(t, c) == k;
    }
    forall k | k in groups.Keys
      ensures k in Ccds(t)
    {
      var first := groups[k][0];
      assert first in groups[k];
      assert CcdOf(t, first) == k;
    }
    forall k | k in groups
      ensures groups[k] == Group(t, k)
    {
      assert ToSet(groups[k]) == Members(t, k);
      StrictListingIsUnique(groups[k], Group(t, k));
    }
  }

  lemma IsGroupGrows(group: seq<int>, t: Topology, seen: set<int>, ccd: int, c: int)
    requires seen + {c} <= t.cores.Keys && IsGroup(group, t, seen, ccd)
    requires CcdOf(t, c) == ccd && forall d :: d in seen ==> d < c
    ensures IsGroup(group + [c], t, seen + {c}, ccd)
  {
    AppendLargest(group, c);
    assert forall d :: d in group + [c] <==> d in ToSet(group) + {c};
  }

  lemma SeenPrefix(t: Topology, ids: seq<int>, i: nat)
    requires Strict(ids) && ToSet(ids) == t.cores.Keys && i < |ids|
    ensures ids[i] in t.cores && forall d :: d in ToSet(ids[..i]) ==> d < ids[i]
    ensures ToSet(ids[..i + 1]) == ToSet(ids[..i]) + {ids[i]}
  {
    assert ids[i] in ToSet(ids);
    assert ids[..i + 1] == ids[..i] + [ids[i]];
    ToSetConcat(ids[..i], [ids[i]]);
  }

  lemma GroupedStep(groups: map<int, seq<int>>, t: Topology, seen: set<int>, c: int)
    requires seen <= t.cores.Keys && c in t.cores && Grouped(groups, t, seen)
    requires forall d :: d in seen ==> d < c
    ensures var key := CcdOf(t, c);
      Grouped(groups[key := (if key in groups then groups[key] else []) + [c]], t, seen + {c})
  {
    var key := CcdOf(t, c);
    var previous := if key in groups then groups[key] else [];
    var after := groups[key := previous + [c]];
    assert IsGroup(previous, t, seen, key);
    IsGroupGrows(previous, t, seen, key, c);
    forall k | k in groups && k != key
      ensures IsGroup(groups[k], t, seen + {c}, k)
    {
    }
  }

  function Zip(ids: seq<int>, ccd: int, slots: seq<int>): CoreMap
    requires |ids| == |slots|
  {
    if ids == [] then map[] else Zip(ids[1..], ccd, slots[1..])[ids[0] := (ccd, slots[0])]
  }

  lemma {:induction false} ZipPlaces(ids: seq<int>, ccd: int, slots: seq<int>)
    requires |ids| == |slots| && Strict(ids)
    ensures Zip(ids, ccd, slots).Keys == ToSet(ids) && Places(Zip(ids, ccd, slots), ids, ccd, slots)
  {
    if ids != [] {
      var rest := Zip(ids[1..], ccd, slots[1..]);
      ZipPlaces(ids[1..], ccd, slots[1..]);
      assert ids == [ids[0]] + ids[1..];
      ToSetConcat([ids[0]], ids[1..]);
      var m := Zip(ids, ccd, slots);
      forall i | 0 <= i < |ids|
        ensures ids[i] in m && m[ids[i]].0 == ccd && m[ids[i]].1 == slots[i]
      {
        if i > 0 {
          assert ids[1..][i - 1] == ids[i] && slots[1..][i - 1] == slots[i];
          assert ids[i] != ids[0];
        }
      }
    }
  }

  ghost predicate PlacedCcd(m: CoreMap, t: Topology, fuseAddr: Option<int>, smn: Smn, k: int) {
    var slots := GroupSlots(fuseAddr, smn, k, Group(t, k));
    slots.Some? && Places(m, Group(t, k), k, slots.value)
  }

  /** Merging in another CCD's cores leaves the placed ones alone. */
  lemma MergeKeepsPlaced(m: CoreMap, added: CoreMap, t: Topology, fuseAddr: Option<int>, smn: Smn, k: int, other: int)
    requires PlacedCcd(m, t, fuseAddr, smn, k) && k != other
    requires added.Keys == ToSet(Group(t, other))
    ensures PlacedCcd(m + added, t, fuseAddr, smn, k)
  {
    var ids := Group(t, k);
    forall i | 0 <= i < |ids|
      ensures ids[i] !in added
    {
      assert ids[i] in ToSet(ids);
      assert ids[i] in Members(t, k);
    }
  }

  lemma MergePlaces(m: CoreMap, t: Topology, fuseAddr: Option<int>, smn: Smn, k: int, slots: seq<int>)
    requires GroupSlots(fuseAddr, smn, k, Group(t, k)) == Some(slots)
    ensures |slots| == |Group(t, k)|
    ensures PlacedCcd(m + Zip(Group(t, k), k, slots), t, fuseAddr, smn, k)
  {
    GroupSlotsAscend(fuseAddr, smn, k, Group(t, k));
    ZipPlaces(Group(t, k), k, slots);
  }

  /** The first `n` CCDs are placed, and nothing else. */
  ghost predicate PlacedSoFar(m: CoreMap, t: Topology, fuseAddr: Option<int>, smn: Smn, ccds: seq<int>) {
    && (forall k :: k in ccds ==> PlacedCcd(m, t, fuseAddr, smn, k))
    && (forall c :: c in m <==> c in t.cores && CcdOf(t, c) in ccds)
  }

  lemma PlaceNext(m: CoreMap, t: Topology, fuseAddr: Option<int>, smn: Smn, ccds: seq<int>, k: int, slots: seq<int>)
    requires PlacedSoFar(m, t, fuseAddr, smn, ccds) && k !in ccds
    requires GroupSlots(fuseAddr, smn, k, Group(t, k)) == Some(slots)
    ensures |slots| == |Group(t, k)|
    ensures PlacedSoFar(m + Zip(Group(t, k), k, slots), t, fuseAddr, smn, ccds + [k])
  {
    MergePlaces(m, t, fuseAddr, smn, k, slots);
    ZipPlaces(Group(t, k), k, slots);
    var added := Zip(Group(t, k), k, slots);
    forall j | j in ccds
      ensures PlacedCcd(m + added, t, fuseAddr, smn, j)
    {
      MergeKeepsPlaced(m, added, t, fuseAddr, smn, j, k);
    }
    forall c
      ensures c in m + added <==> c in t.cores && CcdOf(t, c) in ccds + [k]
    {
      assert c in added <==> c in Members(t, k);
    }
  }

  lemma PlacedKeys(m: CoreMap, t: Topology, ccds: seq<int>)
    requires forall c :: c in m <==> c in t.cores && CcdOf(t, c) in ccds
    requires ToSet(ccds) == Ccds(t)
    ensures m.Keys == t.cores.Keys
  {
    forall c | c in t.cores
      ensures c in m
    {
      assert CcdOf(t, c) in Ccds(t);
      assert CcdOf(t, c) in ToSet(ccds);
    }
    forall c | c in m.Keys
      ensures c in t.cores.Keys
    {
      assert c in m;
    }
  }

  lemma AllPlaced(m: CoreMap, t: Topology, fuseAddr: Option<int>, smn: Smn, ccds: seq<int>)
    requires PlacedSoFar(m, t, fuseAddr, smn, ccds) && ToSet(ccds) == Ccds(t)
    ensures Installs(m, t, fuseAddr, smn)
  {
    PlacedKeys(m, t, ccds);
    forall k | k in Ccds(t)
      ensures PlacedCcd(m, t, fuseAddr, smn, k)
    {
      assert k in ToSet(ccds);
    }
  }

  method LocateSlots(fuseAddr: Option<int>, smn: Smn, ccd: int, ids: seq<int>) returns (slots: Option<seq<int>>)
    ensures slots == GroupSlots(fuseAddr, smn, ccd, ids)
  {
    slots := DeriveGroupSlots(ids, true);
    if slots.None? {
      slots := FuseGroupSlots(fuseAddr, smn, ccd, |ids|);
    }
  }

  /** The whole map, CCD by CCD; None when some CCD's slots cannot be located. */
  method MapGroups(t: Topology, groups: map<int, seq<int>>, fuseAddr: Option<int>, smn: Smn)
    returns (result: Option<CoreMap>)
    requires groups.Keys == Ccds(t) && forall k :: k in groups ==> groups[k] == Group(t, k)
    ensures result.Some? <==> Located(t, fuseAddr, smn)
    ensures result.Some? ==> Installs(result.value, t, fuseAddr, smn)
  {
    var ccds := Ascend(groups.Keys);
    var m: CoreMap := map[];
    ghost var placed: seq<int> := [];
    for i := 0 to |ccds|
      invariant placed == ccds[..i]
      invariant PlacedSoFar(m, t, fuseAddr, smn, placed)
    {
      var k := ccds[i];
      assert k in ToSet(ccds);
      var slots := LocateSlots(fuseAddr, smn, k, groups[k]);
      if slots.None? {
        UnlocatedCcd(t, fuseAddr, smn, k);
        return None;
      }
      assert ccds[..i + 1] == ccds[..i] + [k];
      PlaceNext(m, t, fuseAddr, smn, placed, k, slots.value);
      m := m + Zip(groups[k], k, slots.value);
      placed := placed + [k];
    }
    assert placed == ccds;
    AllPlaced(m, t, fuseAddr, smn, placed);
    AllLocatedIff(t, fuseAddr, smn);
    return Some(m);
  }
}
