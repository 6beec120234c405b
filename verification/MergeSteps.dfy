/** The loops of a merge, table by table: what each one reads from the source file and
    what it leaves in the destination. */
module MergeSteps {
  import opened Wrappers
  import opened CoreSets
  import opened History

  // ----- rows copied under fresh ids -----

  /** Ids are renamed in order, so no two become one. */
  ghost predicate Monotone(ids: map<int, int>) {
    forall a, b :: a in ids && b in ids && a < b ==> ids[a] < ids[b]
  }

  ghost predicate OneToOne(ids: map<int, int>) {
    forall a, b :: a in ids && b in ids && ids[a] == ids[b] ==> a == b
  }

  lemma MonotoneIsOneToOne(ids: map<int, int>)
    requires Monotone(ids)
    ensures OneToOne(ids)
  {
    forall a, b | a in ids && b in ids && a != b
      ensures ids[a] != ids[b]
    {
      if a > b {
        assert ids[b] < ids[a];
      }
    }
  }

  lemma SameMap<Row>(a: map<int, Row>, b: map<int, Row>)
    requires (forall s :: s in b ==> s in a) && forall s :: s in a ==> s in b && a[s] == b[s]
    ensures a == b
  {
    assert forall s :: s in a.Keys <==> s in b.Keys;
    assert a.Keys == b.Keys;
    assert forall s :: s in a.Keys ==> a[s] == b[s];
  }

  predicate Hit(ids: map<int, int>, to: int) {
    exists s :: s in ids && ids[s] == to
  }

  lemma HitGrows(ids: map<int, int>, s: int, to: int)
    requires s !in ids
    ensures forall id :: Hit(ids[s := to], id) <==> Hit(ids, id) || id == to
  {
    var more := ids[s := to];
    forall id
      ensures Hit(more, id) <==> Hit(ids, id) || id == to
    {
      if Hit(ids, id) {
        var t :| t in ids && ids[t] == id;
        assert more[t] == id;
      }
      assert more[s] == to;
    }
  }

  /** The new table holds the old rows as they were, one fresh row for each renamed id,
      as `image` has it, and nothing else. */
  ghost predicate CopiedSoFar<Row>(old_: Table<Row>, new_: Table<Row>, image: map<int, Row>, ids: map<int, int>) {
    && old_.next <= new_.next
    && (forall s :: s in ids ==> s in image && old_.next <= ids[s] < new_.next)
    && (forall s :: s in ids ==> ids[s] in new_.rows && new_.rows[ids[s]] == image[s])
    && (forall id :: id in new_.rows ==> id in old_.rows || Hit(ids, id))
    && (forall id :: id in old_.rows ==> id in new_.rows && new_.rows[id] == old_.rows[id])
  }

  /** All of `image` was copied, in order. */
  ghost predicate Copied<Row>(old_: Table<Row>, new_: Table<Row>, image: map<int, Row>, ids: map<int, int>) {
    CopiedSoFar(old_, new_, image, ids) && Monotone(ids) && forall s :: s in image ==> s in ids
  }

  lemma CopyOneMore<Row>(old_: Table<Row>, mid: Table<Row>, image: map<int, Row>, ids: map<int, int>, s: int)
    requires Numbered(old_) && CopiedSoFar(old_, mid, image, ids) && Monotone(ids)
    requires s in image && forall t :: t in ids ==> t < s
    ensures CopiedSoFar(old_, Appended(mid, image[s]), image, ids[s := mid.next]) && Monotone(ids[s := mid.next])
  {
    HitGrows(ids, s, mid.next);
  }

  lemma CopiedIsNumbered<Row>(old_: Table<Row>, new_: Table<Row>, image: map<int, Row>, ids: map<int, int>)
    requires Numbered(old_) && CopiedSoFar(old_, new_, image, ids)
    ensures Numbered(new_)
  {
    forall id | id in new_.rows
      ensures id < new_.next
    {
      if id !in old_.rows {
        assert Hit(ids, id);
      }
    }
  }

  lemma OneMoreRow<Row>(t: Table<Row>, row: Row)
    requires Numbered(t)
    ensures |Appended(t, row).rows.Keys| == |t.rows.Keys| + 1
  {
    assert Appended(t, row).rows.Keys == t.rows.Keys + {t.next};
  }

  // ----- contexts -----

  /** The id of the context stored under a key. */
  method FindContext(contexts: map<int, Context>, key: ContextKey) returns (r: Option<int>)
    ensures r.Some? ==> r.value in contexts && contexts[r.value].key == key
    ensures r.None? ==> forall id :: id in contexts ==> contexts[id].key != key
  {
    var rest := contexts.Keys;
    while rest != {}
      invariant rest <= contexts.Keys
      invariant forall id :: id in contexts && id !in rest ==> contexts[id].key != key
    {
      var id := Least(rest);
      if contexts[id].key == key {
        return Some(id);
      }
      rest := rest - {id};
    }
    return None;
  }

  /** Each source context became the one with its key: an old one as it was, or a copy. */
  ghost predicate ContextsCopied(
    old_: Table<Context>, new_: Table<Context>, src: map<int, Context>, ids: map<int, int>) {
    && ids.Keys == src.Keys
    && UniqueContexts(new_.rows) && Numbered(new_)
    && (forall s :: s in ids ==> ids[s] in new_.rows && new_.rows[ids[s]].key == src[s].key)
    && (forall s :: s in ids && ids[s] !in old_.rows ==> new_.rows[ids[s]] == src[s])
    && (forall id :: id in old_.rows ==> id in new_.rows && new_.rows[id] == old_.rows[id])
    && (forall id :: id in new_.rows ==> id in old_.rows || Hit(ids, id))
  }

  /** Two source contexts never share one id. */
  lemma ContextIdsDiffer(old_: Table<Context>, new_: Table<Context>, src: map<int, Context>, ids: map<int, int>)
    requires UniqueContexts(src) && ContextsCopied(old_, new_, src, ids)
    ensures OneToOne(ids)
  {
    forall a, b | a in ids && b in ids && ids[a] == ids[b]
      ensures a == b
    {
      assert src[a].key == src[b].key;
    }
  }

  lemma ContextDeduplicated(
    old_: Table<Context>, now: Table<Context>, src: map<int, Context>, done: map<int, Context>,
    ids: map<int, int>, s: int, id: int)
    requires ContextsCopied(old_, now, done, ids) && UniqueContexts(src)
    requires forall d :: d in done ==> d in src && done[d] == src[d]
    requires s in src && s !in done && id in now.rows && now.rows[id].key == src[s].key
    ensures ContextsCopied(old_, now, done[s := src[s]], ids[s := id])
  {
    HitGrows(ids, s, id);
  }

  lemma UniqueWithNewKey(t: Table<Context>, row: Context)
    requires Numbered(t) && UniqueContexts(t.rows) && forall id :: id in t.rows ==> t.rows[id].key != row.key
    ensures UniqueContexts(Appended(t, row).rows) && Numbered(Appended(t, row))
    ensures forall id :: id in Appended(t, row).rows <==> id in t.rows || id == t.next
    ensures forall id :: id in t.rows ==> Appended(t, row).rows[id] == t.rows[id] && id != t.next
  {
  }

  lemma ContextInserted(
    old_: Table<Context>, now: Table<Context>, done: map<int, Context>, ids: map<int, int>, s: int, row: Context)
    requires ContextsCopied(old_, now, done, ids) && Numbered(old_) && s !in done
    requires forall id :: id in now.rows ==> now.rows[id].key != row.key
    ensures ContextsCopied(old_, Appended(now, row), done[s := row], ids[s := now.next])
  {
    HitGrows(ids, s, now.next);
    UniqueWithNewKey(now, row);
    var more := ids[s := now.next];
    forall t | t in more
      ensures more[t] in Appended(now, row).rows && Appended(now, row).rows[more[t]].key == done[s := row][t].key
    {
      assert t in done || t == s;
    }
    assert forall t :: t in ids ==> ids[t] in now.rows;
    assert now.next !in old_.rows;
  }

  /** Inserting a context, or finding the one already stored under its key. */
  ghost predicate Adopts(t: Table<Context>, row: Context, r: Table<Context>, id: int) {
    if r == t then id in t.rows && t.rows[id].key == row.key
    else r == Appended(t, row) && id == t.next && forall k :: k in t.rows ==> t.rows[k].key != row.key
  }

  method InsertOrFind(t: Table<Context>, row: Context) returns (r: Table<Context>, id: int, isNew: bool)
    requires Numbered(t)
    ensures Adopts(t, row, r, id)
    ensures |r.rows.Keys| == |t.rows.Keys| + if isNew then 1 else 0
  {
    var existing := FindContext(t.rows, row.key);
    if existing.Some? {
      return t, existing.value, false;
    }
    OneMoreRow(t, row);
    return Appended(t, row), t.next, true;
  }

  lemma ContextAdopted(
    old_: Table<Context>, now: Table<Context>, r: Table<Context>, src: map<int, Context>, done: map<int, Context>,
    ids: map<int, int>, s: int, id: int)
    requires ContextsCopied(old_, now, done, ids) && Numbered(old_) && UniqueContexts(src)
    requires forall d :: d in done ==> d in src && done[d] == src[d]
    requires s in src && s !in done && Adopts(now, src[s], r, id)
    ensures ContextsCopied(old_, r, done[s := src[s]], ids[s := id]) && Numbered(r)
  {
    if r == now {
      ContextDeduplicated(old_, now, src, done, ids, s, id);
    } else {
      ContextInserted(old_, now, done, ids, s, src[s]);
    }
  }

  /** Contexts are deduplicated by key; `added` counts the ones that were new. */
  method MergeContexts(t: Table<Context>, src: map<int, Context>)
    returns (r: Table<Context>, ctxMap: map<int, int>, added: int)
    requires Numbered(t) && UniqueContexts(t.rows) && UniqueContexts(src)
    ensures ContextsCopied(t, r, src, ctxMap)
    ensures added == |r.rows.Keys| - |t.rows.Keys|
  {
    var rest := src.Keys;
    r, ctxMap, added := t, map[], 0;
    ghost var done: map<int, Context> := map[];
    while rest != {}
      invariant forall s :: s in src <==> s in rest || s in done
      invariant forall d :: d in done ==> d !in rest && done[d] == src[d]
      invariant ContextsCopied(t, r, done, ctxMap) && Numbered(r)
      invariant added == |r.rows.Keys| - |t.rows.Keys|
    {
      var s := Least(rest);
      rest := rest - {s};
      var next, id, isNew := InsertOrFind(r, src[s]);
      ContextAdopted(t, r, next, src, done, ctxMap, s, id);
      r, ctxMap, done := next, ctxMap[s := id], done[s := src[s]];
      if isNew {
        added := added + 1;
      }
    }
    SameMap(done, src);
  }

  // ----- runs and sessions -----

  /** A reference under the renaming; one to a missing row becomes none. */
  function Follow(link: Option<int>, ids: map<int, int>): Option<int> {
    if link.Some? && link.value in ids then Some(ids[link.value]) else None
  }

  function Regrouped(row: Parent, ctxMap: map<int, int>): Parent {
    row.(context := Follow(row.context, ctxMap))
  }

  ghost function ParentImage(src: map<int, Parent>, ctxMap: map<int, int>): map<int, Parent> {
    map s | s in src :: Regrouped(src[s], ctxMap)
  }

  /** Every row of the source table, each once, in order, its context renamed. */
  method CopyParents(t: Table<Parent>, src: map<int, Parent>, ctxMap: map<int, int>)
    returns (r: Table<Parent>, idMap: map<int, int>)
    requires Numbered(t)
    ensures Copied(t, r, ParentImage(src, ctxMap), idMap)
  {
    ghost var image := ParentImage(src, ctxMap);
    var rest := src.Keys;
    r, idMap := t, map[];
    while rest != {}
      invariant rest <= src.Keys && forall s :: s in src ==> s in rest || s in idMap
      invariant forall d, e :: d in idMap && e in rest ==> d < e
      invariant CopiedSoFar(t, r, image, idMap) && Monotone(idMap)
    {
      var s := Least(rest);
      rest := rest - {s};
      CopyOneMore(t, r, image, idMap, s);
      r, idMap := Appended(r, Regrouped(src[s], ctxMap)), idMap[s := r.next];
    }
  }

  // ----- their children -----

  datatype IdMaps = IdMaps(contexts: map<int, int>, runs: map<int, int>, sessions: map<int, int>)

  /** A child of a missing session is skipped; a missing run leaves its column empty. */
  predicate Skipped(row: Child, maps: IdMaps) {
    row.session.Some? && row.session.value !in maps.sessions
  }

  function Rewired(row: Child, maps: IdMaps): Child {
    row.(run := Follow(row.run, maps.runs), session := Follow(row.session, maps.sessions))
  }

  ghost function ChildImage(src: map<int, Child>, maps: IdMaps): map<int, Child> {
    map s | s in src && !Skipped(src[s], maps) :: Rewired(src[s], maps)
  }

  /** A row the table cannot take: its run is missing and the column must not be empty. */
  predicate Orphaned(kind: Kind, row: Child, runs: set<int>) {
    OfRun(kind) && row.run.Some? && row.run.value !in runs
  }

  /** What the database refuses: an empty required column, a dangling reference, a second
      state of one session and core. */
  predicate Accepts(kind: Kind, rows: map<int, Child>, row: Child, runs: set<int>, sessions: set<int>) {
    && Shaped(kind, row)
    && Refers(row.run, runs) && Refers(row.session, sessions)
    && (kind == CoreStates ==> forall id :: id in rows ==> !SameState(rows[id], row))
  }

  /** The renamed sessions are new: none of the table's rows belongs to one. */
  ghost predicate NewSessions(rows: map<int, Child>, maps: IdMaps) {
    forall id, s :: id in rows && s in maps.sessions ==> rows[id].session != Some(maps.sessions[s])
  }

  ghost predicate ParentsReady(maps: IdMaps, runs: set<int>, sessions: set<int>) {
    && Monotone(maps.sessions)
    && (forall s :: s in maps.runs ==> maps.runs[s] in runs)
    && (forall s :: s in maps.sessions ==> maps.sessions[s] in sessions)
  }

  lemma SameStateBefore(a: Child, b: Child, maps: IdMaps)
    requires Monotone(maps.sessions) && a.session.Some? && b.session.Some? && !Skipped(a, maps) && !Skipped(b, maps)
    ensures SameState(Rewired(a, maps), Rewired(b, maps)) ==> SameState(a, b)
  {
    MonotoneIsOneToOne(maps.sessions);
    var x, y := a.session.value, b.session.value;
    assert Rewired(a, maps).session.value == maps.sessions[x] && Rewired(b, maps).session.value == maps.sessions[y];
    assert x == y ==> a.session == Some(x) == b.session;
  }

  /** No state in the table, old or copied, is for the session and core of a new one. */
  lemma StatesDiffer(t: Table<Child>, mid: Table<Child>, src: map<int, Child>, ids: map<int, int>, maps: IdMaps, s: int)
    requires AllShaped(CoreStates, src) && UniqueStates(src) && NewSessions(t.rows, maps) && Monotone(maps.sessions)
    requires CopiedSoFar(t, mid, ChildImage(src, maps), ids)
    requires s in src && s !in ids && !Skipped(src[s], maps)
    ensures forall id :: id in mid.rows ==> !SameState(mid.rows[id], Rewired(src[s], maps))
  {
    var row := Rewired(src[s], maps);
    assert Shaped(CoreStates, src[s]);
    var k := src[s].session.value;
    assert row.session == Some(maps.sessions[k]);
    forall id | id in mid.rows
      ensures !SameState(mid.rows[id], row)
    {
      if id in t.rows {
        assert mid.rows[id] == t.rows[id];
        assert k in maps.sessions && t.rows[id].session != Some(maps.sessions[k]);
      } else {
        assert Hit(ids, id);
        var d :| d in ids && ids[d] == id;
        assert mid.rows[id] == Rewired(src[d], maps);
        assert !SameState(src[d], src[s]);
        assert Shaped(CoreStates, src[d]);
        SameStateBefore(src[d], src[s], maps);
      }
    }
  }

  /** A row is accepted exactly when it is no orphan. */
  lemma AcceptedUnlessOrphaned(
    kind: Kind, t: Table<Child>, mid: Table<Child>, src: map<int, Child>, ids: map<int, int>, maps: IdMaps,
    runs: set<int>, sessions: set<int>, s: int)
    requires AllShaped(kind, src) && (kind == CoreStates ==> UniqueStates(src) && NewSessions(t.rows, maps))
    requires ParentsReady(maps, runs, sessions) && CopiedSoFar(t, mid, ChildImage(src, maps), ids)
    requires s in src && s !in ids && !Skipped(src[s], maps)
    ensures Accepts(kind, mid.rows, Rewired(src[s], maps), runs, sessions) <==> !Orphaned(kind, src[s], maps.runs.Keys)
  {
    FollowedIsThere(src[s].run, maps.runs, runs);
    FollowedIsThere(src[s].session, maps.sessions, sessions);
    assert Shaped(kind, src[s]);
    if kind == CoreStates {
      StatesDiffer(t, mid, src, ids, maps, s);
    }
  }

  lemma FollowedIsThere(link: Option<int>, ids: map<int, int>, there: set<int>)
    requires forall k :: k in ids ==> ids[k] in there
    ensures Refers(Follow(link, ids), there)
    ensures Follow(link, ids).None? <==> link.None? || link.value !in ids
  {
    if link.Some? {
      var k := link.value;
      assert k in ids ==> ids[k] in there;
    }
  }

  /** Skip one child, insert it under the next id, or be refused. */
  method CopyChild(
    kind: Kind, t: Table<Child>, now: Table<Child>, src: map<int, Child>, ids: map<int, int>,
    maps: IdMaps, runs: set<int>, sessions: set<int>, s: int)
      returns (r: Option<Table<Child>>, more: map<int, int>)
    requires Numbered(t) && AllShaped(kind, src) &&
      (kind == CoreStates ==> UniqueStates(src) && NewSessions(t.rows, maps))
    requires ParentsReady(maps, runs, sessions) && CopiedSoFar(t, now, ChildImage(src, maps), ids) && Monotone(ids)
    requires s in src && forall d :: d in ids ==> d < s
    ensures r.None? <==> Orphaned(kind, src[s], maps.runs.Keys)
    ensures r.Some? ==> CopiedSoFar(t, r.value, ChildImage(src, maps), more) && Monotone(more)
    ensures r.Some? ==> forall d :: d in more <==> d in ids || (d == s && !Skipped(src[s], maps))
  {
    assert Shaped(kind, src[s]);
    if Skipped(src[s], maps) {
      return Some(now), ids;
    }
    var row := Rewired(src[s], maps);
    AcceptedUnlessOrphaned(kind, t, now, src, ids, maps, runs, sessions, s);
    if !Accepts(kind, now.rows, row, runs, sessions) {
      return None, ids;
    }
    CopyOneMore(t, now, ChildImage(src, maps), ids, s);
    return Some(Appended(now, row)), ids[s := now.next];
  }

  /** Every child before the remaining ones was copied or skipped, and none is an orphan. */
  ghost predicate ChildrenDone(kind: Kind, src: map<int, Child>, ids: map<int, int>, maps: IdMaps, rest: set<int>) {
    && rest <= src.Keys
    && (forall s :: s in src && s !in rest ==> Skipped(src[s], maps) || s in ids)
    && (forall s :: s in src && s !in rest ==> !Orphaned(kind, src[s], maps.runs.Keys))
    && (forall d, e :: d in ids && e in rest ==> d < e)
  }

  lemma NextChildDone(
    kind: Kind, src: map<int, Child>, ids: map<int, int>, more: map<int, int>, maps: IdMaps, rest: set<int>, s: int)
    requires ChildrenDone(kind, src, ids, maps, rest) && s in rest && (forall e :: e in rest ==> s <= e)
    requires !Orphaned(kind, src[s], maps.runs.Keys)
    requires forall d :: d in more <==> d in ids || (d == s && !Skipped(src[s], maps))
    ensures ChildrenDone(kind, src, more, maps, rest - {s})
  {
  }

  lemma AllChildrenDone(
    kind: Kind, t: Table<Child>, now: Table<Child>, src: map<int, Child>, ids: map<int, int>, maps: IdMaps)
    requires ChildrenDone(kind, src, ids, maps, {}) && CopiedSoFar(t, now, ChildImage(src, maps), ids) && Monotone(ids)
    ensures Copied(t, now, ChildImage(src, maps), ids)
    ensures forall s :: s in src ==> !Orphaned(kind, src[s], maps.runs.Keys)
  {
  }

  /** All children whose session was copied, or nothing if one of them lost its run. */
  method CopyChildren(
    kind: Kind, t: Table<Child>, src: map<int, Child>, maps: IdMaps, runs: set<int>, sessions: set<int>)
    returns (r: Option<Table<Child>>, ids: map<int, int>)
    requires Numbered(t) && AllShaped(kind, src) && ParentsReady(maps, runs, sessions)
    requires kind == CoreStates ==> UniqueStates(src) && NewSessions(t.rows, maps)
    ensures r.None? <==> exists s :: s in src && Orphaned(kind, src[s], maps.runs.Keys)
    ensures r.Some? ==> Copied(t, r.value, ChildImage(src, maps), ids)
  {
    var rest := src.Keys;
    var now := t;
    ids := map[];
    while rest != {}
      invariant ChildrenDone(kind, src, ids, maps, rest)
      invariant CopiedSoFar(t, now, ChildImage(src, maps), ids) && Monotone(ids)
    {
      var s := Least(rest);
      var next, more := CopyChild(kind, t, now, src, ids, maps, runs, sessions, s);
      if next.None? {
        return None, ids;
      }
      NextChildDone(kind, src, ids, more, maps, rest, s);
      rest := rest - {s};
      now, ids := next.value, more;
    }
    AllChildrenDone(kind, t, now, src, ids, maps);
    return Some(now), ids;
  }

  // ----- the journal and the banks -----

  /** The journal of every copied session comes along under its new id. */
  ghost predicate JournalCopied(
    old_: map<Slot, Entry>, new_: map<Slot, Entry>, src: map<Slot, Entry>, sessions: map<int, int>) {
    && (forall slot :: slot in src && slot.session in sessions ==>
          var to := Slot(sessions[slot.session], slot.core);
          to in new_ && new_[to] == src[slot])
    && (forall slot :: slot in old_ ==> slot in new_ && new_[slot] == old_[slot])
    && (forall slot :: slot in new_ ==> slot in old_ || JournalImage(src, sessions, slot))
  }

  ghost predicate JournalImage(src: map<Slot, Entry>, sessions: map<int, int>, to: Slot) {
    exists slot :: slot in src && slot.session in sessions && to == Slot(sessions[slot.session], slot.core)
  }

  /** No copied row can collide with one already there. */
  method CopyJournal(journal: map<Slot, Entry>, src: map<Slot, Entry>, sessions: map<int, int>)
    returns (r: map<Slot, Entry>)
    requires Monotone(sessions)
    requires forall slot, s :: slot in journal && s in sessions ==> slot.session != sessions[s]
    ensures JournalCopied(journal, r, src, sessions)
  {
    r := journal;
    var rest := src.Keys;
    while rest != {}
      invariant rest <= src.Keys
      invariant JournalCopied(journal, r, map slot | slot in src.Keys - rest :: src[slot], sessions)
    {
      var slot :| slot in rest;
      ghost var done := map slot | slot in src.Keys - rest :: src[slot];
      rest := rest - {slot};
      ghost var more := map slot | slot in src.Keys - rest :: src[slot];
      if slot.session in sessions {
        var to := Slot(sessions[slot.session], slot.core);
        JournalSlotIsFree(journal, done, sessions, slot);
        assert to !in r;
        JournalStep(journal, r, done, sessions, slot, src[slot]);
        assert more == done[slot := src[slot]];
        r := r[to := src[slot]];
      } else {
        JournalSkip(journal, r, done, more, sessions, slot);
      }
    }
    assert (map slot | slot in src.Keys - {} :: src[slot]) == src;
  }

  lemma JournalSlotIsFree(journal: map<Slot, Entry>, done: map<Slot, Entry>, sessions: map<int, int>, slot: Slot)
    requires Monotone(sessions) && slot !in done && slot.session in sessions
    requires forall old_, s :: old_ in journal && s in sessions ==> old_.session != sessions[s]
    ensures Slot(sessions[slot.session], slot.core) !in journal
    ensures !JournalImage(done, sessions, Slot(sessions[slot.session], slot.core))
  {
  }

  lemma JournalStep(
    journal: map<Slot, Entry>, r: map<Slot, Entry>, done: map<Slot, Entry>, sessions: map<int, int>, slot: Slot,
    entry: Entry)
    requires JournalCopied(journal, r, done, sessions) && slot !in done && slot.session in sessions
    requires Slot(sessions[slot.session], slot.core) !in r
    ensures JournalCopied(journal, r[Slot(sessions[slot.session], slot.core) := entry], done[slot := entry], sessions)
  {
    var to := Slot(sessions[slot.session], slot.core);
    var more := done[slot := entry];
    forall k | k in r[to := entry]
      ensures k in journal || JournalImage(more, sessions, k)
    {
      if k == to {
        assert slot in more;
      } else if k !in journal {
        var d :| d in done && d.session in sessions && k == Slot(sessions[d.session], d.core);
        assert d in more;
      }
    }
  }

  lemma JournalSkip(
    journal: map<Slot, Entry>, r: map<Slot, Entry>, done: map<Slot, Entry>, more: map<Slot, Entry>,
    sessions: map<int, int>, slot: Slot)
    requires JournalCopied(journal, r, done, sessions) && slot.session !in sessions
    requires more.Keys == done.Keys + {slot} && forall d :: d in done ==> more[d] == done[d]
    ensures JournalCopied(journal, r, more, sessions)
  {
    forall k | k in r
      ensures k in journal || JournalImage(more, sessions, k)
    {
      if k !in journal {
        var d :| d in done && d.session in sessions && k == Slot(sessions[d.session], d.core);
        assert d in more;
      }
    }
  }

  function Joined(bank: Option<Bank>, more: Bank): Bank {
    if bank.None? then more
    else Bank(bank.value.seconds + more.seconds,
              if more.updatedAt > bank.value.updatedAt then more.updatedAt else bank.value.updatedAt)
  }

  function Stocked(banks: map<BankKey, Bank>, key: BankKey): Option<Bank> {
    if key in banks then Some(banks[key]) else None
  }

  ghost predicate BankImage(src: map<BankKey, Bank>, ctxMap: map<int, int>, to: BankKey) {
    exists key :: key in src && key.context in ctxMap && to == BankKey(ctxMap[key.context], key.rung)
  }

  /** Banked time of each known context is added to what its context already had. */
  ghost predicate BanksJoined(
    old_: map<BankKey, Bank>, new_: map<BankKey, Bank>, src: map<BankKey, Bank>, ctxMap: map<int, int>) {
    && (forall key :: key in src && key.context in ctxMap ==>
          var to := BankKey(ctxMap[key.context], key.rung);
          to in new_ && new_[to] == Joined(Stocked(old_, to), src[key]))
    && (forall key :: key in old_ ==> key in new_ && (!BankImage(src, ctxMap, key) ==> new_[key] == old_[key]))
    && (forall key :: key in new_ ==> key in old_ || BankImage(src, ctxMap, key))
  }

  method JoinBanks(banks: map<BankKey, Bank>, src: map<BankKey, Bank>, ctxMap: map<int, int>)
    returns (r: map<BankKey, Bank>)
    requires OneToOne(ctxMap)
    ensures BanksJoined(banks, r, src, ctxMap)
  {
    r := banks;
    var rest := src.Keys;
    while rest != {}
      invariant rest <= src.Keys
      invariant BanksJoined(banks, r, map key | key in src.Keys - rest :: src[key], ctxMap)
    {
      var key :| key in rest;
      ghost var done := map key | key in src.Keys - rest :: src[key];
      rest := rest - {key};
      ghost var more := map key | key in src.Keys - rest :: src[key];
      assert more == done[key := src[key]];
      if key.context in ctxMap {
        var to := BankKey(ctxMap[key.context], key.rung);
        BankStep(banks, r, done, ctxMap, key, src[key]);
        r := r[to := Joined(Stocked(r, to), src[key])];
      } else {
        BankSkip(banks, r, done, ctxMap, key, src[key]);
      }
    }
    assert (map key | key in src.Keys - {} :: src[key]) == src;
  }

  lemma BankImageGrows(src: map<BankKey, Bank>, ctxMap: map<int, int>, key: BankKey, bank: Bank, to: BankKey)
    requires key !in src
    ensures BankImage(src[key := bank], ctxMap, to) <==>
      BankImage(src, ctxMap, to) || (key.context in ctxMap && to == BankKey(ctxMap[key.context], key.rung))
  {
    var more := src[key := bank];
    if BankImage(src, ctxMap, to) {
      var d :| d in src && d.context in ctxMap && to == BankKey(ctxMap[d.context], d.rung);
      assert d in more;
    }
    if key.context in ctxMap && to == BankKey(ctxMap[key.context], key.rung) {
      assert key in more;
    }
  }

  lemma BankIsFree(done: map<BankKey, Bank>, ctxMap: map<int, int>, key: BankKey)
    requires OneToOne(ctxMap) && key !in done && key.context in ctxMap
    ensures !BankImage(done, ctxMap, BankKey(ctxMap[key.context], key.rung))
  {
  }

  lemma BankStep(
    banks: map<BankKey, Bank>, r: map<BankKey, Bank>, done: map<BankKey, Bank>, ctxMap: map<int, int>,
    key: BankKey, bank: Bank)
    requires OneToOne(ctxMap) && BanksJoined(banks, r, done, ctxMap) && key !in done && key.context in ctxMap
    ensures var to := BankKey(ctxMap[key.context], key.rung);
      BanksJoined(banks, r[to := Joined(Stocked(r, to), bank)], done[key := bank], ctxMap)
  {
    var to := BankKey(ctxMap[key.context], key.rung);
    BankIsFree(done, ctxMap, key);
    assert Stocked(r, to) == Stocked(banks, to);
    var next := r[to := Joined(Stocked(r, to), bank)];
    forall k
      ensures BankImage(done[key := bank], ctxMap, k) <==> BankImage(done, ctxMap, k) || k == to
    {
      BankImageGrows(done, ctxMap, key, bank, k);
    }
    forall d | d in done && d.context in ctxMap
      ensures next[BankKey(ctxMap[d.context], d.rung)] ==
        Joined(Stocked(banks, BankKey(ctxMap[d.context], d.rung)), done[d])
    {
      assert BankImage(done, ctxMap, BankKey(ctxMap[d.context], d.rung));
    }
  }

  lemma BankSkip(
    banks: map<BankKey, Bank>, r: map<BankKey, Bank>, done: map<BankKey, Bank>, ctxMap: map<int, int>,
    key: BankKey, bank: Bank)
    requires BanksJoined(banks, r, done, ctxMap) && key !in done && key.context !in ctxMap
    ensures BanksJoined(banks, r, done[key := bank], ctxMap)
  {
    forall k
      ensures BankImage(done[key := bank], ctxMap, k) <==> BankImage(done, ctxMap, k)
    {
      BankImageGrows(done, ctxMap, key, bank, k);
    }
  }
}
