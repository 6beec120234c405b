/** Adopting another history database: all of it or nothing, under fresh ids, with every
    reference still meaning what it meant. */
module Merge {
  import opened Wrappers
  import opened History
  import opened MergeSteps

  /** A run-owned row of the source whose run is gone. */
  ghost predicate LostRun(src: Database)
    requires HasTables(src.children)
  {
    exists kind: Kind :: HasOrphan(kind, src)
  }

  ghost predicate HasOrphan(kind: Kind, src: Database)
    requires HasTables(src.children)
  {
    exists s :: s in src.children[kind].rows && Orphaned(kind, src.children[kind].rows[s], src.runs.rows.Keys)
  }

  ghost predicate TableMerged(old_: Table<Child>, new_: Table<Child>, src: map<int, Child>, maps: IdMaps) {
    exists ids :: Copied(old_, new_, ChildImage(src, maps), ids)
  }

  ghost predicate ChildrenMerged(
    kind: Kind, old_: map<Kind, Table<Child>>, new_: map<Kind, Table<Child>>, src: map<Kind, Table<Child>>,
    maps: IdMaps)
    requires HasTables(old_) && HasTables(new_) && HasTables(src)
  {
    TableMerged(old_[kind], new_[kind], src[kind].rows, maps)
  }

  ghost predicate ParentsMerged(old_: Database, new_: Database, src: Database, maps: IdMaps) {
    && ContextsCopied(old_.contexts, new_.contexts, src.contexts.rows, maps.contexts)
    && Copied(old_.runs, new_.runs, ParentImage(src.runs.rows, maps.contexts), maps.runs)
    && Copied(old_.sessions, new_.sessions, ParentImage(src.sessions.rows, maps.contexts), maps.sessions)
  }

  /** The destination after a merge, table by table. */
  ghost predicate Merged(old_: Database, new_: Database, src: Database, maps: IdMaps) {
    && ParentsMerged(old_, new_, src, maps)
    && HasTables(old_.children) && HasTables(src.children) && HasTables(new_.children)
    && (forall kind: Kind :: ChildrenMerged(kind, old_.children, new_.children, src.children, maps))
    && JournalCopied(old_.journal, new_.journal, src.journal, maps.sessions)
    && BanksJoined(old_.banks, new_.banks, src.banks, maps.contexts)
  }

  // ----- a merge keeps the destination sound -----

  lemma OldIdsStay<Row>(old_: Table<Row>, new_: Table<Row>, image: map<int, Row>, ids: map<int, int>)
    requires Copied(old_, new_, image, ids)
    ensures old_.rows.Keys <= new_.rows.Keys && forall s :: s in ids ==> ids[s] in new_.rows.Keys
  {
    forall id | id in old_.rows.Keys
      ensures id in new_.rows.Keys
    {
    }
  }

  lemma ParentsStayLinked(
    old_: Table<Parent>, new_: Table<Parent>, src: map<int, Parent>, ids: map<int, int>, was: set<int>,
    now: set<int>, ctxMap: map<int, int>)
    requires Copied(old_, new_, ParentImage(src, ctxMap), ids)
    requires ParentsLinked(old_.rows, was) && was <= now && forall s :: s in ctxMap ==> ctxMap[s] in now
    ensures ParentsLinked(new_.rows, now)
  {
    forall id | id in new_.rows
      ensures Refers(new_.rows[id].context, now)
    {
      if id in old_.rows {
        assert Refers(old_.rows[id].context, was);
      } else {
        assert Hit(ids, id);
        var s :| s in ids && ids[s] == id;
        FollowedIsThere(src[s].context, ctxMap, now);
      }
    }
  }

  lemma ChildrenStayLinked(
    old_: Table<Child>, new_: Table<Child>, src: map<int, Child>, ids: map<int, int>, maps: IdMaps,
    wasRuns: set<int>, runs: set<int>, wasSessions: set<int>, sessions: set<int>)
    requires Copied(old_, new_, ChildImage(src, maps), ids) && ParentsReady(maps, runs, sessions)
    requires ChildrenLinked(old_.rows, wasRuns, wasSessions) && wasRuns <= runs && wasSessions <= sessions
    ensures ChildrenLinked(new_.rows, runs, sessions)
  {
    forall id | id in new_.rows
      ensures Refers(new_.rows[id].run, runs) && Refers(new_.rows[id].session, sessions)
    {
      if id in old_.rows {
        assert Refers(old_.rows[id].run, wasRuns) && Refers(old_.rows[id].session, wasSessions);
      } else {
        assert Hit(ids, id);
        var s :| s in ids && ids[s] == id;
        FollowedIsThere(src[s].run, maps.runs, runs);
        FollowedIsThere(src[s].session, maps.sessions, sessions);
      }
    }
  }

  lemma ChildrenStayShaped(
    kind: Kind, old_: Table<Child>, new_: Table<Child>, src: map<int, Child>, ids: map<int, int>, maps: IdMaps)
    requires Copied(old_, new_, ChildImage(src, maps), ids) && AllShaped(kind, old_.rows) && AllShaped(kind, src)
    requires forall s :: s in src ==> !Orphaned(kind, src[s], maps.runs.Keys)
    ensures AllShaped(kind, new_.rows)
  {
    forall id | id in new_.rows
      ensures Shaped(kind, new_.rows[id])
    {
      if id in old_.rows {
        assert Shaped(kind, old_.rows[id]);
      } else {
        assert Hit(ids, id);
        var s :| s in ids && ids[s] == id;
        assert Shaped(kind, src[s]) && !Orphaned(kind, src[s], maps.runs.Keys);
        FollowedIsThere(src[s].run, maps.runs, maps.runs.Values);
        FollowedIsThere(src[s].session, maps.sessions, maps.sessions.Values);
      }
    }
  }

  lemma StatesStayUnique(old_: Table<Child>, new_: Table<Child>, src: map<int, Child>, ids: map<int, int>, maps: IdMaps)
    requires Copied(old_, new_, ChildImage(src, maps), ids) && Monotone(maps.sessions)
    requires UniqueStates(old_.rows) && UniqueStates(src) && AllShaped(CoreStates, src) && NewSessions(old_.rows, maps)
    ensures UniqueStates(new_.rows)
  {
    forall a, b | a in new_.rows && b in new_.rows && a != b
      ensures !SameState(new_.rows[a], new_.rows[b])
    {
      if a in old_.rows && b in old_.rows {
        assert !SameState(old_.rows[a], old_.rows[b]);
      } else if a !in old_.rows && b !in old_.rows {
        var s := SourceOf(old_, new_, src, ids, maps, a);
        var t := SourceOf(old_, new_, src, ids, maps, b);
        assert Shaped(CoreStates, src[s]) && Shaped(CoreStates, src[t]);
        SameStateBefore(src[s], src[t], maps);
        assert s != t && !SameState(src[s], src[t]);
      } else if a in old_.rows {
        OldStateDiffers(old_, new_, src, ids, maps, a, b);
      } else {
        OldStateDiffers(old_, new_, src, ids, maps, b, a);
      }
    }
  }

  /** The source row a copied row was made from. */
  ghost function SourceOf(
    old_: Table<Child>, new_: Table<Child>, src: map<int, Child>, ids: map<int, int>, maps: IdMaps, id: int): (s: int)
    requires Copied(old_, new_, ChildImage(src, maps), ids) && id in new_.rows && id !in old_.rows
    ensures s in src && !Skipped(src[s], maps) && s in ids && ids[s] == id && new_.rows[id] == Rewired(src[s], maps)
  {
    assert Hit(ids, id);
    var s :| s in ids && ids[s] == id;
    s
  }

  lemma OldStateDiffers(
    old_: Table<Child>, new_: Table<Child>, src: map<int, Child>, ids: map<int, int>, maps: IdMaps, a: int, b: int)
    requires Copied(old_, new_, ChildImage(src, maps), ids) && AllShaped(CoreStates, src) &&
      NewSessions(old_.rows, maps)
    requires a in old_.rows && b in new_.rows && b !in old_.rows
    ensures !SameState(new_.rows[a], new_.rows[b])
  {
    var t := SourceOf(old_, new_, src, ids, maps, b);
    assert Shaped(CoreStates, src[t]);
    var k := src[t].session.value;
    assert new_.rows[b].session == Some(maps.sessions[k]);
    assert k in maps.sessions && old_.rows[a].session != Some(maps.sessions[k]);
  }

  /** Fresh session ids are unknown to everything stored before. */
  lemma SessionsAreNew(old_: Database, new_: Database, src: Database, maps: IdMaps, kind: Kind)
    requires Sound(old_) && ParentsMerged(old_, new_, src, maps)
    ensures NewSessions(old_.children[kind].rows, maps)
    ensures forall slot, s :: slot in old_.journal && s in maps.sessions ==> slot.session != maps.sessions[s]
  {
    forall id, s | id in old_.children[kind].rows && s in maps.sessions
      ensures old_.children[kind].rows[id].session != Some(maps.sessions[s])
    {
      var link := old_.children[kind].rows[id].session;
      assert ChildrenLinked(old_.children[kind].rows, old_.runs.rows.Keys, old_.sessions.rows.Keys);
      assert Refers(link, old_.sessions.rows.Keys);
      if link.Some? {
        var k := link.value;
        assert k in old_.sessions.rows && k < old_.sessions.next;
      }
    }
    forall slot, s | slot in old_.journal && s in maps.sessions
      ensures slot.session != maps.sessions[s]
    {
      assert slot.session in old_.sessions.rows;
    }
  }

  lemma ReadyParents(old_: Database, new_: Database, src: Database, maps: IdMaps)
    requires ParentsMerged(old_, new_, src, maps)
    ensures ParentsReady(maps, new_.runs.rows.Keys, new_.sessions.rows.Keys)
    ensures maps.runs.Keys == src.runs.rows.Keys && maps.sessions.Keys == src.sessions.rows.Keys
    ensures old_.runs.rows.Keys <= new_.runs.rows.Keys && old_.sessions.rows.Keys <= new_.sessions.rows.Keys
    ensures old_.contexts.rows.Keys <= new_.contexts.rows.Keys
    ensures forall s :: s in maps.contexts ==> maps.contexts[s] in new_.contexts.rows.Keys
  {
    OldIdsStay(old_.runs, new_.runs, ParentImage(src.runs.rows, maps.contexts), maps.runs);
    OldIdsStay(old_.sessions, new_.sessions, ParentImage(src.sessions.rows, maps.contexts), maps.sessions);
    assert forall id :: id in old_.contexts.rows.Keys ==> id in new_.contexts.rows.Keys;
    assert forall s :: s in maps.runs.Keys <==> s in src.runs.rows.Keys;
    assert forall s :: s in maps.sessions.Keys <==> s in src.sessions.rows.Keys;
  }

  lemma ChildTableIsSound(old_: Database, new_: Database, src: Database, maps: IdMaps, kind: Kind)
    requires Sound(old_) && Stored(src) && !LostRun(src) && Merged(old_, new_, src, maps)
    ensures AllShaped(kind, new_.children[kind].rows) && Numbered(new_.children[kind])
    ensures ChildrenLinked(new_.children[kind].rows, new_.runs.rows.Keys, new_.sessions.rows.Keys)
    ensures kind == CoreStates ==> UniqueStates(new_.children[kind].rows)
  {
    assert ChildrenMerged(kind, old_.children, new_.children, src.children, maps);
    var t, r, rows := old_.children[kind], new_.children[kind], src.children[kind].rows;
    var ids :| Copied(t, r, ChildImage(rows, maps), ids);
    assert AllShaped(kind, t.rows) && AllShaped(kind, rows);
    assert ChildrenLinked(t.rows, old_.runs.rows.Keys, old_.sessions.rows.Keys);
    assert Numbered(t);
    assert !HasOrphan(kind, src);
    ReadyParents(old_, new_, src, maps);
    SessionsAreNew(old_, new_, src, maps, kind);
    ChildrenStayShaped(kind, t, r, rows, ids, maps);
    CopiedIsNumbered(t, r, ChildImage(rows, maps), ids);
    ChildrenStayLinked(t, r, rows, ids, maps, old_.runs.rows.Keys, new_.runs.rows.Keys, old_.sessions.rows.Keys,
      new_.sessions.rows.Keys);
    if kind == CoreStates {
      StatesStayUnique(t, r, rows, ids, maps);
    }
  }

  lemma JournalStaysLinked(
    old_: map<Slot, Entry>, new_: map<Slot, Entry>, src: map<Slot, Entry>, ids: map<int, int>, was: set<int>,
    now: set<int>)
    requires JournalCopied(old_, new_, src, ids) && JournalLinked(old_, was) && was <= now && forall s :: s in ids ==>
      ids[s] in now
    ensures JournalLinked(new_, now)
  {
    forall slot | slot in new_
      ensures slot.session in now
    {
      if slot !in old_ {
        var d :| d in src && d.session in ids && slot == Slot(ids[d.session], d.core);
        var k := d.session;
        assert ids[k] in now;
      }
    }
  }

  lemma BanksStayLinked(
    old_: map<BankKey, Bank>, new_: map<BankKey, Bank>, src: map<BankKey, Bank>, ids: map<int, int>,
    was: set<int>, now: set<int>)
    requires BanksJoined(old_, new_, src, ids) && BanksLinked(old_, was) && was <= now && forall s :: s in ids ==>
      ids[s] in now
    ensures BanksLinked(new_, now)
  {
    forall key | key in new_
      ensures key.context in now
    {
      if key !in old_ {
        var d :| d in src && d.context in ids && key == BankKey(ids[d.context], d.rung);
        var k := d.context;
        assert ids[k] in now;
      }
    }
  }

  /** Whatever references the source file had lost, the merged database has them all. */
  lemma MergedIsSound(old_: Database, new_: Database, src: Database, maps: IdMaps)
    requires Sound(old_) && Stored(src) && !LostRun(src) && Merged(old_, new_, src, maps)
    ensures Sound(new_)
  {
    ReadyParents(old_, new_, src, maps);
    var was, now := old_.contexts.rows.Keys, new_.contexts.rows.Keys;
    ParentsStayLinked(old_.runs, new_.runs, src.runs.rows, maps.runs, was, now, maps.contexts);
    ParentsStayLinked(old_.sessions, new_.sessions, src.sessions.rows, maps.sessions, was, now, maps.contexts);
    CopiedIsNumbered(old_.runs, new_.runs, ParentImage(src.runs.rows, maps.contexts), maps.runs);
    CopiedIsNumbered(old_.sessions, new_.sessions, ParentImage(src.sessions.rows, maps.contexts), maps.sessions);
    forall kind: Kind
      ensures AllShaped(kind, new_.children[kind].rows) && Numbered(new_.children[kind])
      ensures ChildrenLinked(new_.children[kind].rows, new_.runs.rows.Keys, new_.sessions.rows.Keys)
      ensures kind == CoreStates ==> UniqueStates(new_.children[kind].rows)
    {
      ChildTableIsSound(old_, new_, src, maps, kind);
    }
    JournalStaysLinked(old_.journal, new_.journal, src.journal, maps.sessions, old_.sessions.rows.Keys,
      new_.sessions.rows.Keys);
    BanksStayLinked(old_.banks, new_.banks, src.banks, maps.contexts, was, now);
  }

  // ----- references keep their meaning -----

  ghost predicate GroupedUnder(contexts: map<int, Context>, row: Parent, key: ContextKey) {
    row.context.Some? && row.context.value in contexts && contexts[row.context.value].key == key
  }

  /** A run or session stays grouped under the context with its key, old or new; one whose
      context is gone is copied ungrouped. */
  lemma ParentsKeepTheirContext(
    old_: Database, new_: Database, src: Database, maps: IdMaps, rows: map<int, Parent>, t: Table<Parent>,
    r: Table<Parent>, ids: map<int, int>, s: int)
    requires ContextsCopied(old_.contexts, new_.contexts, src.contexts.rows, maps.contexts)
    requires Copied(t, r, ParentImage(rows, maps.contexts), ids) && s in rows
    ensures s in ids && ids[s] in r.rows && r.rows[ids[s]].cells == rows[s].cells
    ensures forall key :: GroupedUnder(src.contexts.rows, rows[s], key) <==>
      GroupedUnder(new_.contexts.rows, r.rows[ids[s]], key)
  {
    assert s in ParentImage(rows, maps.contexts);
    assert r.rows[ids[s]] == Regrouped(rows[s], maps.contexts);
    var link := rows[s].context;
    if link.Some? {
      var c := link.value;
      assert c in maps.contexts <==> c in src.contexts.rows;
    }
  }

  /** Where no reference is missing, every child arrives, attached to the copies of its
      run and its session. */
  lemma ChildrenFollowTheirParents(old_: Database, new_: Database, src: Database, maps: IdMaps, kind: Kind)
    requires Stored(src) && ForeignKeys(src) && Merged(old_, new_, src, maps)
    ensures exists ids: map<int, int> ::
              && Monotone(ids)
              && AllAttached(src.children[kind].rows, new_.children[kind].rows, ids, maps)
  {
    assert ChildrenMerged(kind, old_.children, new_.children, src.children, maps);
    var rows, r := src.children[kind].rows, new_.children[kind];
    var ids :| Copied(old_.children[kind], r, ChildImage(rows, maps), ids);
    ReadyParents(old_, new_, src, maps);
    assert ChildrenLinked(rows, src.runs.rows.Keys, src.sessions.rows.Keys);
    LinkedChildrenAttach(old_.children[kind], r, rows, ids, maps);
  }

  lemma LinkedChildrenAttach(
    old_: Table<Child>, new_: Table<Child>, rows: map<int, Child>, ids: map<int, int>, maps: IdMaps)
    requires Copied(old_, new_, ChildImage(rows, maps), ids)
    requires ChildrenLinked(rows, maps.runs.Keys, maps.sessions.Keys)
    ensures AllAttached(rows, new_.rows, ids, maps)
  {
    forall s | s in rows
      ensures s in ids && ids[s] in new_.rows && Attached(rows[s], new_.rows[ids[s]], maps)
    {
      assert Refers(rows[s].run, maps.runs.Keys) && Refers(rows[s].session, maps.sessions.Keys);
      assert s in ChildImage(rows, maps);
      assert new_.rows[ids[s]] == Rewired(rows[s], maps);
    }
  }

  ghost predicate AllAttached(rows: map<int, Child>, copies: map<int, Child>, ids: map<int, int>, maps: IdMaps) {
    forall s :: s in rows ==> s in ids && ids[s] in copies && Attached(rows[s], copies[ids[s]], maps)
  }

  ghost predicate Attached(row: Child, copy: Child, maps: IdMaps) {
    && copy.core == row.core && copy.cells == row.cells
    && (row.run.Some? <==> copy.run.Some?)
    && (row.run.Some? ==> row.run.value in maps.runs && copy.run.value == maps.runs[row.run.value])
    && (row.session.Some? <==> copy.session.Some?)
    && (row.session.Some? ==> row.session.value in maps.sessions)
    && (row.session.Some? ==> copy.session.value == maps.sessions[row.session.value])
  }

  /** Rows that were there before are there after, unchanged, save for banked time. */
  lemma OldRowsStay(old_: Database, new_: Database, src: Database, maps: IdMaps)
    requires Merged(old_, new_, src, maps)
    ensures Extends(old_.contexts.rows, new_.contexts.rows) && Extends(old_.runs.rows, new_.runs.rows)
    ensures Extends(old_.sessions.rows, new_.sessions.rows) && Extends(old_.journal, new_.journal)
    ensures forall kind: Kind :: Extends(old_.children[kind].rows, new_.children[kind].rows)
  {
    forall kind: Kind
      ensures Extends(old_.children[kind].rows, new_.children[kind].rows)
    {
      assert ChildrenMerged(kind, old_.children, new_.children, src.children, maps);
    }
  }

  ghost predicate Extends<K, V>(a: map<K, V>, b: map<K, V>) {
    forall k :: k in a ==> k in b && b[k] == a[k]
  }

  // ----- banked time -----

  ghost predicate KnownAs(db: Database, key: ContextKey, id: int) {
    id in db.contexts.rows && db.contexts.rows[id].key == key
  }

  /** What is banked for a context, wherever it is stored. */
  ghost function Held(db: Database, key: ContextKey, rung: Rung): Option<Bank> {
    if id: int :| KnownAs(db, key, id) then Stocked(db.banks, BankKey(id, rung)) else None
  }

  /** Two shares put together: the seconds of both, the later of their stamps. */
  ghost predicate Together(a: Option<Bank>, b: Option<Bank>, both: Option<Bank>) {
    && (both.None? <==> a.None? && b.None?)
    && (a.None? ==> both == b) && (b.None? ==> both == a)
    && (a.Some? && b.Some? ==>
          && both.value.seconds == a.value.seconds + b.value.seconds
          && both.value.updatedAt >= a.value.updatedAt && both.value.updatedAt >= b.value.updatedAt
          && (both.value.updatedAt == a.value.updatedAt || both.value.updatedAt == b.value.updatedAt))
  }

  lemma HeldAt(db: Database, key: ContextKey, rung: Rung, id: int)
    requires UniqueContexts(db.contexts.rows) && KnownAs(db, key, id)
    ensures Held(db, key, rung) == Stocked(db.banks, BankKey(id, rung))
  {
  }

  /** A merge puts banked time together: per context, core, regime and offset, the shares
      of both databases. */
  lemma BanksArePutTogether(old_: Database, new_: Database, src: Database, maps: IdMaps, key: ContextKey, rung: Rung)
    requires Sound(old_) && Stored(src) && Merged(old_, new_, src, maps)
    ensures Together(Held(old_, key, rung), Held(src, key, rung), Held(new_, key, rung))
  {
    if id: int :| KnownAs(new_, key, id) {
      HeldAt(new_, key, rung, id);
      NewContextsBank(old_, new_, src, maps, key, rung, id);
    } else {
      UnknownEverywhere(old_, new_, src, maps, key);
    }
  }

  function Seconds(bank: Option<Bank>): real {
    if bank.Some? then bank.value.seconds else 0.0
  }

  /** In particular clean seconds add up. */
  lemma BankedTimeAdds(old_: Database, new_: Database, src: Database, maps: IdMaps, key: ContextKey, rung: Rung)
    requires Sound(old_) && Stored(src) && Merged(old_, new_, src, maps)
    ensures Seconds(Held(new_, key, rung)) == Seconds(Held(old_, key, rung)) + Seconds(Held(src, key, rung))
  {
    BanksArePutTogether(old_, new_, src, maps, key, rung);
  }

  lemma UnknownEverywhere(old_: Database, new_: Database, src: Database, maps: IdMaps, key: ContextKey)
    requires ContextsCopied(old_.contexts, new_.contexts, src.contexts.rows, maps.contexts)
    requires forall id :: !KnownAs(new_, key, id)
    ensures forall id :: !KnownAs(old_, key, id) && !KnownAs(src, key, id)
  {
    forall id
      ensures !KnownAs(old_, key, id) && !KnownAs(src, key, id)
    {
      assert !KnownAs(new_, key, id);
      assert KnownAs(src, key, id) ==> KnownAs(new_, key, maps.contexts[id]);
    }
  }

  /** What one context of the merged database holds. */
  lemma NewContextsBank(
    old_: Database, new_: Database, src: Database, maps: IdMaps, key: ContextKey, rung: Rung, id: int)
    requires Sound(old_) && Stored(src) && Merged(old_, new_, src, maps) && KnownAs(new_, key, id)
    ensures Together(Held(old_, key, rung), Held(src, key, rung), Stocked(new_.banks, BankKey(id, rung)))
  {
    OldShare(old_, new_, src, maps, key, rung, id);
    if s: int :| KnownAs(src, key, s) {
      HeldAt(src, key, rung, s);
      assert KnownAs(new_, key, maps.contexts[s]);
      assert maps.contexts[s] == id;
      SourceShare(old_, new_, src, maps, rung, s);
    } else {
      NoSourceShare(old_, new_, src, maps, key, rung, id);
    }
  }

  lemma OldShare(old_: Database, new_: Database, src: Database, maps: IdMaps, key: ContextKey, rung: Rung, id: int)
    requires Sound(old_) && Merged(old_, new_, src, maps) && KnownAs(new_, key, id)
    ensures Stocked(old_.banks, BankKey(id, rung)) == Held(old_, key, rung)
  {
    if id in old_.contexts.rows {
      HeldAt(old_, key, rung, id);
    } else {
      assert BankKey(id, rung) !in old_.banks;
      forall k
        ensures !KnownAs(old_, key, k)
      {
        assert KnownAs(old_, key, k) ==> KnownAs(new_, key, k);
      }
    }
  }

  lemma SourceShare(old_: Database, new_: Database, src: Database, maps: IdMaps, rung: Rung, s: int)
    requires Merged(old_, new_, src, maps) && Stored(src) && s in maps.contexts
    ensures var to := BankKey(maps.contexts[s], rung);
      Together(Stocked(old_.banks, to), Stocked(src.banks, BankKey(s, rung)), Stocked(new_.banks, to))
  {
    var from, to := BankKey(s, rung), BankKey(maps.contexts[s], rung);
    ContextIdsDiffer(old_.contexts, new_.contexts, src.contexts.rows, maps.contexts);
    if from !in src.banks {
      assert !BankImage(src.banks, maps.contexts, to);
    }
  }

  lemma NoSourceShare(old_: Database, new_: Database, src: Database, maps: IdMaps, key: ContextKey, rung: Rung, id: int)
    requires Merged(old_, new_, src, maps) && KnownAs(new_, key, id)
    requires forall s :: !KnownAs(src, key, s)
    ensures Stocked(new_.banks, BankKey(id, rung)) == Stocked(old_.banks, BankKey(id, rung))
  {
    forall d | d in src.banks && d.context in maps.contexts
      ensures maps.contexts[d.context] != id
    {
      assert !KnownAs(src, key, d.context);
    }
  }
}
