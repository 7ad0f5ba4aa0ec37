/**
 * The schema migration of the PostgreSQL store under concurrency. Every run is one transaction: it waits
 * for an advisory lock, reads the ledger, builds the schema statement by statement or finds it built,
 * checks the result and commits; any statement may fail, COMMIT with an unknown outcome included.
 */
module Migration {
  import opened Text16
  import opened Domain

  datatype Object =
    | SchemaItself | LedgerTable | StreamsTable | EventsTable | RejectFunction
    | EventsNoUpdateDelete | EventsNoTruncate | StreamsNoDelete | StreamsNoTruncate
    | LedgerNoUpdateDelete | LedgerNoTruncate

  /** A ledger row; the version is None when it does not read as a non-negative safe integer. */
  datatype LedgerRow = LedgerRow(version: Option<nat>, name: Text, checksum: Text)

  datatype Definition = Definition(version: nat, name: Text, checksum: Text)

  datatype Catalog = Catalog(objects: set<Object>, ledger: seq<LedgerRow>)

  datatype Problem = VersionAhead | Required | ChecksumMismatch | Incomplete | Corrupt | DatabaseFailed

  // ---------------------------------------------------------------- the ledger check

  datatype Found = NoneSuch | At(row: LedgerRow) | Unreadable

  /** `rows.find` with a test that parses the version and throws on one that does not parse. */
  function FindAbove(rows: seq<LedgerRow>, version: nat): Found {
    if rows == [] then NoneSuch
    else if rows[0].version.None? then Unreadable
    else if rows[0].version.value > version then At(rows[0])
    else FindAbove(rows[1..], version)
  }

  function FindEqual(rows: seq<LedgerRow>, version: nat): Found {
    if rows == [] then NoneSuch
    else if rows[0].version.None? then Unreadable
    else if rows[0].version.value == version then At(rows[0])
    else FindEqual(rows[1..], version)
  }

  function RequireRows(rows: seq<LedgerRow>, m: Definition): Option<Problem> {
    match FindAbove(rows, m.version)
    case Unreadable => Some(Corrupt)
    case At(_) => Some(VersionAhead)
    case NoneSuch =>
      match FindEqual(rows, m.version)
      case Unreadable => Some(Corrupt)
      case NoneSuch => Some(Required)
      case At(row) =>
        if row.name != m.name || row.checksum != m.checksum then Some(ChecksumMismatch) else None
  }

  predicate AtMost(row: LedgerRow, version: nat) { row.version.Some? && row.version.value <= version }

  ghost predicate FirstOf(rows: seq<LedgerRow>, k: int, version: nat) {
    0 <= k < |rows| && rows[k].version == Some(version) && forall i | 0 <= i < k :: rows[i].version != Some(version)
  }

  ghost predicate FirstBeyond(rows: seq<LedgerRow>, k: int, version: nat) {
    0 <= k < |rows| && !AtMost(rows[k], version) && forall i | 0 <= i < k :: AtMost(rows[i], version)
  }

  lemma {:induction false} FindsTheFirst(rows: seq<LedgerRow>, version: nat) returns (k: nat)
    ensures k <= |rows| && forall i | 0 <= i < k :: AtMost(rows[i], version)
    ensures k < |rows| ==> FirstBeyond(rows, k, version)
    ensures FindAbove(rows, version) ==
      if k == |rows| then NoneSuch else if rows[k].version.None? then Unreadable else At(rows[k])
  {
    if rows == [] || !AtMost(rows[0], version) {
      k := 0;
    } else {
      k := FindsTheFirst(rows[1..], version);
      k := k + 1;
      forall i | 0 <= i < k ensures AtMost(rows[i], version) {
        if i > 0 { assert rows[i] == rows[1..][i - 1]; }
      }
    }
  }

  lemma {:induction false} FindsTheEqual(rows: seq<LedgerRow>, version: nat) returns (k: nat)
    requires forall i | 0 <= i < |rows| :: rows[i].version.Some?
    ensures k <= |rows| && forall i | 0 <= i < k :: rows[i].version != Some(version)
    ensures k < |rows| ==> FirstOf(rows, k, version)
    ensures FindEqual(rows, version) == if k == |rows| then NoneSuch else At(rows[k])
  {
    if rows == [] || rows[0].version == Some(version) {
      k := 0;
    } else {
      k := FindsTheEqual(rows[1..], version);
      k := k + 1;
      forall i | 0 <= i < k ensures rows[i].version != Some(version) {
        if i > 0 { assert rows[i] == rows[1..][i - 1]; }
      }
    }
  }

  /**
   * The ledger check, exactly, for arbitrary rows: it looks at the first row that is unreadable or ahead,
   * and only if there is none at the first row of its own version.
   */
  lemma RequireRowsExactly(rows: seq<LedgerRow>, m: Definition)
    ensures RequireRows(rows, m) == Some(Corrupt) <==>
      exists k :: FirstBeyond(rows, k, m.version) && rows[k].version.None?
    ensures RequireRows(rows, m) == Some(VersionAhead) <==>
      exists k :: FirstBeyond(rows, k, m.version) && rows[k].version.Some?
    ensures RequireRows(rows, m) == Some(Required) <==>
      forall k | 0 <= k < |rows| :: AtMost(rows[k], m.version) && rows[k].version != Some(m.version)
    ensures RequireRows(rows, m).None? <==>
      (forall k | 0 <= k < |rows| :: AtMost(rows[k], m.version)) &&
      exists k :: FirstOf(rows, k, m.version) && rows[k].name == m.name && rows[k].checksum == m.checksum
  {
    var k := FindsTheFirst(rows, m.version);
    if k == |rows| {
      var j := FindsTheEqual(rows, m.version);
      if j < |rows| {
        assert FirstOf(rows, j, m.version);
        forall i | FirstOf(rows, i, m.version) ensures i == j {
          assert !(i < j) && !(j < i);
        }
      }
    } else {
      assert FirstBeyond(rows, k, m.version);
      forall i | FirstBeyond(rows, i, m.version) ensures i == k {
        assert !(i < k) && !(k < i);
      }
    }
  }

  // ---------------------------------------------------------------- the statements

  const DDL_COUNT := 9

  /** Where in the order of creation an object comes; the statements of the migration itself start at 0. */
  function Place(o: Object): (k: int)
    ensures -2 <= k < DDL_COUNT
  {
    match o
    case SchemaItself => -2
    case LedgerTable => -1
    case StreamsTable => 0
    case EventsTable => 1
    case RejectFunction => 2
    case EventsNoUpdateDelete => 3
    case EventsNoTruncate => 4
    case StreamsNoDelete => 5
    case StreamsNoTruncate => 6
    case LedgerNoUpdateDelete => 7
    case LedgerNoTruncate => 8
  }

  /** What the k-th statement of the migration creates. */
  function Ddl(k: nat): (o: Object)
    requires k < DDL_COUNT
    ensures Place(o) == k
  {
    match k
    case 0 => StreamsTable
    case 1 => EventsTable
    case 2 => RejectFunction
    case 3 => EventsNoUpdateDelete
    case 4 => EventsNoTruncate
    case 5 => StreamsNoDelete
    case 6 => StreamsNoTruncate
    case 7 => LedgerNoUpdateDelete
    case 8 => LedgerNoTruncate
  }

  lemma PlacesDiffer(o: Object, p: Object)
    requires Place(o) == Place(p)
    ensures o == p
  {
  }

  /** What must exist before an object can be created. */
  function Needs(o: Object): set<Object> {
    match o
    case SchemaItself => {}
    case LedgerTable => {SchemaItself}
    case StreamsTable => {SchemaItself}
    case EventsTable => {SchemaItself, StreamsTable}
    case RejectFunction => {SchemaItself}
    case EventsNoUpdateDelete => {EventsTable, RejectFunction}
    case EventsNoTruncate => {EventsTable, RejectFunction}
    case StreamsNoDelete => {StreamsTable, RejectFunction}
    case StreamsNoTruncate => {StreamsTable, RejectFunction}
    case LedgerNoUpdateDelete => {LedgerTable, RejectFunction}
    case LedgerNoTruncate => {LedgerTable, RejectFunction}
  }

  /** The order of creation respects what is needed. */
  lemma NeedsComeFirst(o: Object)
    ensures forall p | p in Needs(o) :: Place(p) < Place(o)
  {
  }

  const ALL := {
    SchemaItself, LedgerTable, StreamsTable, EventsTable, RejectFunction, EventsNoUpdateDelete, EventsNoTruncate,
    StreamsNoDelete, StreamsNoTruncate, LedgerNoUpdateDelete, LedgerNoTruncate}

  lemma AllIsAll(o: Object)
    ensures o in ALL
  {
  }

  /** The objects that the schema check looks for. */
  const CHECKED := {
    StreamsTable, EventsTable, LedgerTable, EventsNoUpdateDelete, EventsNoTruncate, StreamsNoDelete,
    StreamsNoTruncate, LedgerNoUpdateDelete, LedgerNoTruncate}

  predicate Ready(c: Catalog, m: Definition) {
    RequireRows(c.ledger, m).None? && CHECKED <= c.objects
  }

  // ---------------------------------------------------------------- runs

  type RunId = nat

  datatype Pc =
    | BeginTx | TakeLock | CreateSchema | CreateLedger | ReadBefore | Build(k: nat) | InsertRow | ReadAfter
    | CheckObjects | Commit | Rollback(problem: Problem) | Finished(outcome: Option<Problem>)

  /** One migration run: what it has created and inserted so far without committing. */
  datatype Runner = Runner(added: set<Object>, inserted: seq<LedgerRow>, pc: Pc)

  datatype State = State(db: Catalog, lock: Option<RunId>, runs: map<RunId, Runner>)

  datatype Action = Start(t: RunId) | Advance(t: RunId) | Fail(t: RunId) | LoseCommitAnswer(t: RunId, committed: bool)

  /** What a statement of the run sees: committed data and the run's own changes. */
  function View(db: Catalog, r: Runner): Catalog {
    Catalog(db.objects + r.added, db.ledger + r.inserted)
  }

  function Put(s: State, t: RunId, r: Runner): State { s.(runs := s.runs[t := r]) }

  function Release(s: State, t: RunId): State { if s.lock == Some(t) then s.(lock := None) else s }

  /** Plain CREATE: fails if the object exists or something it needs does not. */
  function Create(s: State, t: RunId, o: Object, next: Pc): State
    requires t in s.runs
  {
    var r := s.runs[t];
    var seen := View(s.db, r).objects;
    if o in seen || !(Needs(o) <= seen) then Put(s, t, r.(pc := Rollback(DatabaseFailed)))
    else Put(s, t, r.(added := r.added + {o}, pc := next))
  }

  function CreateIfMissing(s: State, t: RunId, o: Object, next: Pc): State
    requires t in s.runs
  {
    var r := s.runs[t];
    if o in View(s.db, r).objects then Put(s, t, r.(pc := next)) else Create(s, t, o, next)
  }

  function AfterReadingBefore(rows: seq<LedgerRow>, m: Definition): Pc {
    match FindAbove(rows, m.version)
    case Unreadable => Rollback(Corrupt)
    case At(_) => Rollback(VersionAhead)
    case NoneSuch =>
      match FindEqual(rows, m.version)
      case Unreadable => Rollback(Corrupt)
      case NoneSuch => Build(0)
      case At(_) =>
        var problem := RequireRows(rows, m);
        if problem.Some? then Rollback(problem.value) else ReadAfter
  }

  function CommitRun(s: State, t: RunId): State
    requires t in s.runs
  {
    var r := s.runs[t];
    Put(Release(s.(db := View(s.db, r)), t), t, Runner({}, [], Finished(None)))
  }

  /** Run the next statement of run `t`; a run that waits for the lock stays where it is. */
  function Statement(m: Definition, s: State, t: RunId): State
    requires t in s.runs
  {
    var r := s.runs[t];
    match r.pc
    case BeginTx => Put(s, t, r.(pc := TakeLock))
    case TakeLock =>
      if s.lock.Some? && s.lock != Some(t) then s
      else Put(s.(lock := Some(t)), t, r.(pc := CreateSchema))
    case CreateSchema => CreateIfMissing(s, t, SchemaItself, CreateLedger)
    case CreateLedger => CreateIfMissing(s, t, LedgerTable, ReadBefore)
    case ReadBefore => Put(s, t, r.(pc := AfterReadingBefore(View(s.db, r).ledger, m)))
    case Build(k) =>
      if k < DDL_COUNT then Create(s, t, Ddl(k), Build(k + 1)) else Put(s, t, r.(pc := InsertRow))
    case InsertRow =>
      if exists row | row in View(s.db, r).ledger :: row.version == Some(m.version) then
        Put(s, t, r.(pc := Rollback(DatabaseFailed)))
      else
        Put(s, t, r.(inserted := r.inserted + [LedgerRow(Some(m.version), m.name, m.checksum)], pc := ReadAfter))
    case ReadAfter =>
      var problem := RequireRows(View(s.db, r).ledger, m);
      Put(s, t, r.(pc := if problem.Some? then Rollback(problem.value) else CheckObjects))
    case CheckObjects => Put(s, t, r.(pc := if CHECKED <= View(s.db, r).objects then Commit else Rollback(Incomplete)))
    case Commit => CommitRun(s, t)
    case Rollback(problem) => Put(Release(s, t), t, Runner({}, [], Finished(Some(problem))))
    case Finished(_) => s
  }

  function Apply(m: Definition, s: State, a: Action): State {
    match a
    case Start(t) => if t in s.runs then s else Put(s, t, Runner({}, [], BeginTx))
    case Advance(t) => if t in s.runs then Statement(m, s, t) else s
    case Fail(t) =>
      if t !in s.runs || s.runs[t].pc.Finished? || s.runs[t].pc.Rollback? || s.runs[t].pc.Commit? then s
      else Put(s, t, s.runs[t].(pc := Rollback(DatabaseFailed)))
    case LoseCommitAnswer(t, committed) =>
      if t !in s.runs || !s.runs[t].pc.Commit? then s
      else if committed then Put(CommitRun(s, t), t, Runner({}, [], Finished(Some(DatabaseFailed))))
      else Put(s, t, s.runs[t].(pc := Rollback(DatabaseFailed)))
  }

  /** The state after any interleaving of any number of runs, started on the catalog `db`. */
  function Run(m: Definition, db: Catalog, actions: seq<Action>): State {
    if actions == [] then State(db, None, map[])
    else Apply(m, Run(m, db, actions[..|actions| - 1]), actions[|actions| - 1])
  }

  // ---------------------------------------------------------------- catalogs

  /** What the database itself guarantees: objects live in the schema, ledger versions are positive. */
  ghost predicate WellFormed(c: Catalog) {
    (c.objects != {} ==> SchemaItself in c.objects) && (c.ledger != [] ==> LedgerTable in c.objects) &&
    forall k | 0 <= k < |c.ledger| :: c.ledger[k].version.Some? && c.ledger[k].version.value > 0
  }

  /** No statement has been run and nothing is recorded; the schema and an empty ledger table may be there. */
  ghost predicate Unmigrated(c: Catalog) {
    c.ledger == [] && forall o :: o in c.objects ==> Place(o) < 0
  }

  /** Everything is there and the ledger holds the one row that says so. */
  function Built(c: Catalog, m: Definition): Catalog {
    Catalog(c.objects + ALL, c.ledger + [LedgerRow(Some(m.version), m.name, m.checksum)])
  }

  lemma BuiltIsReady(c: Catalog, m: Definition)
    requires Unmigrated(c)
    ensures Ready(Built(c, m), m)
    ensures Built(c, m).ledger == [LedgerRow(Some(m.version), m.name, m.checksum)]
  {
    forall o | o in CHECKED ensures o in Built(c, m).objects {
      AllIsAll(o);
    }
    assert Built(c, m).ledger == [LedgerRow(Some(m.version), m.name, m.checksum)];
    OneRowPasses(m);
  }

  lemma OneRowPasses(m: Definition)
    ensures RequireRows([LedgerRow(Some(m.version), m.name, m.checksum)], m).None?
  {
    var rows := [LedgerRow(Some(m.version), m.name, m.checksum)];
    assert rows[0].version == Some(m.version) && rows[1..] == [];
    assert FindAbove(rows, m.version) == FindAbove(rows[1..], m.version) == NoneSuch;
  }
}
