/** The open history database: a merge changes its tables in place, or rolls back. */
module HistoryDB {
  import opened Wrappers
  import opened History
  import opened MergeSteps
  import opened Merge

  datatype Counts = Counts(contexts: int, runs: nat, sessions: nat)

  class HistoryDB {
    var contexts: Table<Context>
    var runs: Table<Parent>
    var sessions: Table<Parent>
    var children: map<Kind, Table<Child>>
    var journal: map<Slot, Entry>
    var banks: map<BankKey, Bank>

    function Value(): Database
      reads this
    {
      Database(contexts, runs, sessions, children, journal, banks)
    }

    constructor (db: Database)
      ensures Value() == db
    {
      contexts, runs, sessions := db.contexts, db.runs, db.sessions;
      children, journal, banks := db.children, db.journal, db.banks;
    }

    method Rollback(db: Database)
      modifies this
      ensures Value() == db
    {
      contexts, runs, sessions := db.contexts, db.runs, db.sessions;
      children, journal, banks := db.children, db.journal, db.banks;
    }

    method MergeParents(src: Database) returns (maps: IdMaps, added: int)
      requires Sound(Value()) && Stored(src)
      modifies this`contexts, this`runs, this`sessions
      ensures ParentsMerged(old(Value()), Value(), src, maps)
      ensures added == |contexts.rows.Keys| - |old(contexts).rows.Keys|
    {
      var ctxMap, runMap, sessionMap;
      contexts, ctxMap, added := MergeContexts(contexts, src.contexts.rows);
      runs, runMap := CopyParents(runs, src.runs.rows, ctxMap);
      sessions, sessionMap := CopyParents(sessions, src.sessions.rows, ctxMap);
      maps := IdMaps(ctxMap, runMap, sessionMap);
    }

    method CopyKind(kind: Kind, src: Database, maps: IdMaps, ghost start: Database) returns (r: Option<Table<Child>>)
      requires Sound(start) && Stored(src) && ParentsMerged(start, Value(), src, maps)
      requires kind in children && children[kind] == start.children[kind]
      ensures r.None? <==> HasOrphan(kind, src)
      ensures r.Some? ==> TableMerged(start.children[kind], r.value, src.children[kind].rows, maps)
    {
      ReadyParents(start, Value(), src, maps);
      SessionsAreNew(start, Value(), src, maps, kind);
      var ids;
      r, ids := CopyChildren(kind, children[kind], src.children[kind].rows, maps, runs.rows.Keys, sessions.rows.Keys);
    }

    /** The six child tables in turn; the first one holding an orphan of a run fails. */
    method MergeChildren(src: Database, maps: IdMaps, ghost start: Database) returns (ok: bool)
      requires Sound(start) && Stored(src) && ParentsMerged(start, Value(), src, maps) && children == start.children
      modifies this`children
      ensures ok <==> !LostRun(src)
      ensures ok ==> HasTables(children)
      ensures ok ==> forall kind: Kind :: ChildrenMerged(kind, start.children, children, src.children, maps)
    {
      for i := 0 to |KINDS|
        invariant KindsDone(i, children, src, maps, start)
      {
        var copied := CopyKind(KINDS[i], src, maps, start);
        if copied.None? {
          return false;
        }
        NextKindDone(i, children, copied.value, src, maps, start);
        children := children[KINDS[i] := copied.value];
      }
      AllKindsDone(children, src, maps, start);
      return true;
    }

    /** The journal and the banks, whose rows have no id of their own. */
    method MergeKeyed(src: Database, maps: IdMaps, ghost start: Database)
      requires Sound(start) && Stored(src) && ParentsMerged(start, Value(), src, maps)
      requires journal == start.journal && banks == start.banks
      modifies this`journal, this`banks
      ensures JournalCopied(start.journal, journal, src.journal, maps.sessions)
      ensures BanksJoined(start.banks, banks, src.banks, maps.contexts)
    {
      SessionsAreNew(start, Value(), src, maps, CoreStates);
      ContextIdsDiffer(start.contexts, contexts, src.contexts.rows, maps.contexts);
      journal := CopyJournal(journal, src.journal, maps.sessions);
      banks := JoinBanks(banks, src.banks, maps.contexts);
    }

    /** Adopt every record of another database. Rows of a run that is gone refuse the
        merge, which then leaves nothing behind; other dangling references are dropped. */
    method MergeFrom(src: Database) returns (counts: Option<Counts>, maps: IdMaps)
      requires Sound(Value()) && Stored(src)
      modifies this
      ensures counts.None? <==> LostRun(src)
      ensures counts.None? ==> Value() == old(Value())
      ensures counts.Some? ==> Merged(old(Value()), Value(), src, maps)
      ensures counts.Some? ==>
        counts.value == Counts(|contexts.rows.Keys| - |old(contexts).rows.Keys|, |src.runs.rows.Keys|,
          |src.sessions.rows.Keys|)
      ensures Sound(Value())
    {
      var saved := Value();
      var added;
      maps, added := MergeParents(src);
      var ok := MergeChildren(src, maps, saved);
      if !ok {
        Rollback(saved);
        return None, maps;
      }
      MergeKeyed(src, maps, saved);
      MergedIsSound(saved, Value(), src, maps);
      ReadyParents(saved, Value(), src, maps);
      counts := Some(Counts(added, |maps.runs.Keys|, |maps.sessions.Keys|));
    }
  }

  /** The first `n` child tables are merged, and the others as they were. */
  ghost predicate KindsDone(n: nat, now: map<Kind, Table<Child>>, src: Database, maps: IdMaps, start: Database)
    requires n <= |KINDS|
  {
    && HasTables(now) && HasTables(start.children) && HasTables(src.children)
    && (forall j :: n <= j < |KINDS| ==> now[KINDS[j]] == start.children[KINDS[j]])
    && (forall j :: 0 <= j < n ==> ChildrenMerged(KINDS[j], start.children, now, src.children, maps))
    && (forall j :: 0 <= j < n ==> !HasOrphan(KINDS[j], src))
  }

  lemma NextKindDone(
    n: nat, now: map<Kind, Table<Child>>, r: Table<Child>, src: Database, maps: IdMaps, start: Database)
    requires n < |KINDS| && KindsDone(n, now, src, maps, start) && !HasOrphan(KINDS[n], src)
    requires TableMerged(start.children[KINDS[n]], r, src.children[KINDS[n]].rows, maps)
    ensures KindsDone(n + 1, now[KINDS[n] := r], src, maps, start)
  {
    KindsDiffer();
    var after := now[KINDS[n] := r];
    forall j | 0 <= j <= n
      ensures ChildrenMerged(KINDS[j], start.children, after, src.children, maps)
    {
      if j < n {
        assert ChildrenMerged(KINDS[j], start.children, now, src.children, maps);
      }
    }
  }

  lemma AllKindsDone(now: map<Kind, Table<Child>>, src: Database, maps: IdMaps, start: Database)
    requires KindsDone(|KINDS|, now, src, maps, start)
    ensures forall kind: Kind :: ChildrenMerged(kind, start.children, now, src.children, maps)
    ensures !LostRun(src)
  {
    KindsDiffer();
    forall kind: Kind
      ensures ChildrenMerged(kind, start.children, now, src.children, maps) && !HasOrphan(kind, src)
    {
      assert kind in KINDS;
    }
  }

  lemma KindsDiffer()
    ensures forall i, j :: 0 <= i < j < |KINDS| ==> KINDS[i] != KINDS[j]
    ensures forall kind: Kind :: kind in KINDS
  {
    forall kind: Kind
      ensures kind in KINDS
    {
      match kind
      case CoreResults => assert KINDS[0] == kind;
      case Events => assert KINDS[1] == kind;
      case Telemetry => assert KINDS[2] == kind;
      case CoreStates => assert KINDS[3] == kind;
      case TunerEvents => assert KINDS[4] == kind;
      case TestLog => assert KINDS[5] == kind;
    }
  }
}
