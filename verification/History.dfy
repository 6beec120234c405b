/** The history database: tables with generated ids, the constraints the schema
    enforces, and the references it promises. */
module History {
  import opened Wrappers

  /** The columns a merge copies without looking at them. */
  datatype Cell = Null | Integer(n: int) | Number(x: real) | Text(s: string)

  /** Rows by id; `next` is the id the next inserted row gets. */
  datatype Table<Row> = Table(rows: map<int, Row>, next: int)

  ghost predicate Numbered<Row>(t: Table<Row>) {
    forall id :: id in t.rows ==> id < t.next
  }

  function Appended<Row>(t: Table<Row>, row: Row): Table<Row> {
    Table(t.rows[t.next := row], t.next + 1)
  }

  datatype ContextKey = ContextKey(hash: string, bios: string)

  datatype Context = Context(key: ContextKey, cells: seq<Cell>)

  /** A run or a tuner session. */
  datatype Parent = Parent(context: Option<int>, cells: seq<Cell>)

  datatype Kind = CoreResults | Events | Telemetry | CoreStates | TunerEvents | TestLog

  const KINDS: seq<Kind> := [CoreResults, Events, Telemetry, CoreStates, TunerEvents, TestLog]

  predicate OfRun(kind: Kind) {
    kind == CoreResults || kind == Events || kind == Telemetry
  }

  datatype Child = Child(run: Option<int>, session: Option<int>, core: int, cells: seq<Cell>)

  /** The reference columns of a table: a run or a session that must be there, and in the
      test log a run that may be. */
  predicate Shaped(kind: Kind, row: Child) {
    if OfRun(kind) then row.run.Some? && row.session.None?
    else row.session.Some? && (kind != TestLog ==> row.run.None?)
  }

  datatype Slot = Slot(session: int, core: int)

  datatype Entry = Entry(value: int, survived: bool, updatedAt: int)

  datatype Rung = Rung(core: int, regime: string, offset: int)

  datatype BankKey = BankKey(context: int, rung: Rung)

  datatype Bank = Bank(seconds: real, updatedAt: int)

  datatype Database = Database(
    contexts: Table<Context>,
    runs: Table<Parent>,
    sessions: Table<Parent>,
    children: map<Kind, Table<Child>>,
    journal: map<Slot, Entry>,
    banks: map<BankKey, Bank>)

  // ----- what the schema enforces row by row -----

  ghost predicate UniqueContexts(contexts: map<int, Context>) {
    forall a, b :: a in contexts && b in contexts && contexts[a].key == contexts[b].key ==> a == b
  }

  predicate SameState(a: Child, b: Child) {
    a.session == b.session && a.core == b.core
  }

  /** One state per session and core. */
  ghost predicate UniqueStates(states: map<int, Child>) {
    forall a, b :: a in states && b in states && SameState(states[a], states[b]) ==> a == b
  }

  ghost predicate AllShaped(kind: Kind, rows: map<int, Child>) {
    forall id :: id in rows ==> Shaped(kind, rows[id])
  }

  ghost predicate HasTables(children: map<Kind, Table<Child>>) {
    forall kind: Kind :: kind in children
  }

  /** A file written under this schema, whether or not its references were checked. */
  ghost predicate Stored(db: Database) {
    && UniqueContexts(db.contexts.rows)
    && HasTables(db.children)
    && (forall kind: Kind :: AllShaped(kind, db.children[kind].rows))
    && UniqueStates(db.children[CoreStates].rows)
  }

  // ----- what it promises across tables -----

  predicate Refers(link: Option<int>, ids: set<int>) {
    link.Some? ==> link.value in ids
  }

  ghost predicate ParentsLinked(rows: map<int, Parent>, contexts: set<int>) {
    forall id :: id in rows ==> Refers(rows[id].context, contexts)
  }

  ghost predicate ChildrenLinked(rows: map<int, Child>, runs: set<int>, sessions: set<int>) {
    forall id :: id in rows ==> Refers(rows[id].run, runs) && Refers(rows[id].session, sessions)
  }

  ghost predicate JournalLinked(journal: map<Slot, Entry>, sessions: set<int>) {
    forall slot :: slot in journal ==> slot.session in sessions
  }

  ghost predicate BanksLinked(banks: map<BankKey, Bank>, contexts: set<int>) {
    forall key :: key in banks ==> key.context in contexts
  }

  /** Every reference names a row that exists. */
  ghost predicate ForeignKeys(db: Database)
    requires HasTables(db.children)
  {
    && ParentsLinked(db.runs.rows, db.contexts.rows.Keys)
    && ParentsLinked(db.sessions.rows, db.contexts.rows.Keys)
    && (forall kind: Kind :: ChildrenLinked(db.children[kind].rows, db.runs.rows.Keys, db.sessions.rows.Keys))
    && JournalLinked(db.journal, db.sessions.rows.Keys)
    && BanksLinked(db.banks, db.contexts.rows.Keys)
  }

  ghost predicate AllNumbered(db: Database)
    requires HasTables(db.children)
  {
    && Numbered(db.contexts) && Numbered(db.runs) && Numbered(db.sessions)
    && forall kind: Kind :: Numbered(db.children[kind])
  }

  ghost predicate Sound(db: Database) {
    Stored(db) && ForeignKeys(db) && AllNumbered(db)
  }
}
