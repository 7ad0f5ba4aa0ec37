/**
 * Loading a stream from PostgreSQL: one statement joins the head with at most maxEvents + 1 event rows,
 * and the reader checks every cell of what comes back before it trusts it.
 */
module PostgresLoad {
  import opened Domain
  import opened EventLog
  import opened PostgresAppend
  import PostgresRuns

  /** A cell cast to text: an integer of any size, SQL NULL, or any other text. */
  datatype Cell = Integer(n: int) | NullCell | OtherCell

  /** A stored JSON text, with the event it parses to if it is one; or a value that is not text. */
  datatype JsonCell = JsonText(parsed: Option<Event>) | NotText

  datatype Row = Row(currentVersion: Cell, version: Cell, eventJson: JsonCell)

  /** Tables with arbitrary contents: a head cell per stream, event cells per stream and version. */
  datatype RawTables = RawTables(heads: map<Id, Cell>, events: map<Id, map<int, JsonCell>>)

  // ---------------------------------------------------------------- the checks on the rows

  function ParseDatabaseVersion(cell: Cell): Result<int> {
    match cell
    case Integer(n) => if 0 <= n <= MAX_SAFE then Success(n) else Failure(CorruptStream)
    case _ => Failure(CorruptStream)
  }

  function DecodeRow(id: Id, index: int, row: Row): Result<Event> {
    match ParseDatabaseVersion(row.version)
    case Failure(e) => Failure(e)
    case Success(storedVersion) =>
      if storedVersion != index + 1 then Failure(CorruptStream)
      else if !row.eventJson.JsonText? then Failure(CorruptStream)
      else if row.eventJson.parsed.None? || !Storable(row.eventJson.parsed.value) then Failure(CorruptStream)
      else
        var event := row.eventJson.parsed.value;
        if event.continuationId != id then Failure(CorruptStream)
        else if event.version != storedVersion then Failure(CorruptStream)
        else Success(event)
  }

  function DecodeRows(id: Id, index: int, rows: seq<Row>): Result<seq<Event>>
    decreases |rows|
  {
    if rows == [] then Success([])
    else
      match DecodeRow(id, index, rows[0])
      case Failure(e) => Failure(e)
      case Success(event) =>
        match DecodeRows(id, index + 1, rows[1..])
        case Failure(e) => Failure(e)
        case Success(events) => Success([event] + events)
  }

  function DecodeStream(id: Id, maxEvents: int, rows: seq<Row>): Result<seq<Event>> {
    if rows == [] then Success([])
    else
      match ParseDatabaseVersion(rows[0].currentVersion)
      case Failure(e) => Failure(e)
      case Success(currentVersion) =>
        if currentVersion > maxEvents || |rows| > maxEvents then Failure(StreamTooLarge)
        else if currentVersion == 0 || |rows| != currentVersion then Failure(CorruptStream)
        else DecodeRows(id, 0, rows)
  }

  // ---------------------------------------------------------------- what any accepted rows mean

  ghost predicate RowHolds(row: Row, e: Event) {
    row.version == Integer(e.version) && row.eventJson == JsonText(Some(e))
  }

  lemma {:induction false} DecodedRowsContinue(id: Id, index: int, rows: seq<Row>)
    requires DecodeRows(id, index, rows).Success?
    ensures var events := DecodeRows(id, index, rows).value;
      |events| == |rows| && ContinuesStream(id, index, events) &&
      forall i | 0 <= i < |rows| :: RowHolds(rows[i], events[i])
    decreases |rows|
  {
    if rows != [] {
      DecodedRowsContinue(id, index + 1, rows[1..]);
      var events, rest := DecodeRows(id, index, rows).value, DecodeRows(id, index + 1, rows[1..]).value;
      forall i | 0 <= i < |rows|
        ensures events[i].continuationId == id && events[i].version == index + i + 1 && Storable(events[i]) &&
                RowHolds(rows[i], events[i])
      {
        if i > 0 { assert events[i] == rest[i - 1] && rows[i] == rows[1..][i - 1]; }
      }
    }
  }

  /**
   * Whatever the tables contain, a load fails or returns events of the requested stream, whole and
   * numbered from one, and exactly the ones its rows hold.
   */
  lemma LoadedStreamIsNumbered(id: Id, maxEvents: int, rows: seq<Row>)
    requires DecodeStream(id, maxEvents, rows).Success?
    ensures var events := DecodeStream(id, maxEvents, rows).value;
      ContinuesStream(id, 0, events) && |events| == |rows| &&
      (rows != [] ==> |events| <= maxEvents && rows[0].currentVersion == Integer(|events|)) &&
      forall i | 0 <= i < |rows| :: RowHolds(rows[i], events[i])
  {
    if rows != [] { DecodedRowsContinue(id, 0, rows); }
  }

  lemma {:induction false} GoodRowsDecode(id: Id, index: int, events: seq<Event>, rows: seq<Row>)
    requires ContinuesStream(id, index, events) && |rows| == |events| && 0 <= index && index + |events| <= MAX_SAFE
    requires forall i | 0 <= i < |rows| :: RowHolds(rows[i], events[i])
    ensures DecodeRows(id, index, rows) == Success(events)
    decreases |rows|
  {
    if rows == [] {
      assert events == [];
    } else {
      assert RowHolds(rows[0], events[0]) && events[0].version == index + 1;
      assert events == [events[0]] + events[1..];
      forall i | 0 <= i < |events[1..]|
        ensures events[1..][i].continuationId == id && events[1..][i].version == index + 1 + i + 1 &&
                Storable(events[1..][i]) && RowHolds(rows[1..][i], events[1..][i])
      {
        assert events[1..][i] == events[i + 1] && rows[1..][i] == rows[i + 1];
      }
      GoodRowsDecode(id, index + 1, events[1..], rows[1..]);
    }
  }

  ghost predicate Hold(id: Id, rows: seq<Row>, events: seq<Event>) {
    |events| == |rows| && ContinuesStream(id, 0, events) && forall i | 0 <= i < |rows| :: RowHolds(rows[i], events[i])
  }

  lemma {:induction false} BadRowsAreCorrupt(id: Id, index: int, rows: seq<Row>)
    requires DecodeRows(id, index, rows).Failure?
    ensures DecodeRows(id, index, rows) == Failure(CorruptStream)
    decreases |rows|
  {
    if DecodeRow(id, index, rows[0]).Success? { BadRowsAreCorrupt(id, index + 1, rows[1..]); }
  }

  /**
   * Exactly which rows a load accepts, and which of its two complaints it makes of all others: no rows, or as
   * many as the head says, within the bound and each in its place; too large is what has a readable head and
   * passes the bound by its head or by its rows.
   */
  lemma LoadsExactly(id: Id, maxEvents: int, rows: seq<Row>)
    requires maxEvents <= MAX_SAFE
    ensures DecodeStream(id, maxEvents, rows).Success? <==>
      rows == [] ||
      (|rows| <= maxEvents && rows[0].currentVersion == Integer(|rows|) && exists events :: Hold(id, rows, events))
    ensures DecodeStream(id, maxEvents, rows) == Failure(StreamTooLarge) <==>
      rows != [] && rows[0].currentVersion.Integer? && 0 <= rows[0].currentVersion.n <= MAX_SAFE &&
      (rows[0].currentVersion.n > maxEvents || |rows| > maxEvents)
    ensures DecodeStream(id, maxEvents, rows).Failure? ==>
      DecodeStream(id, maxEvents, rows).error in {CorruptStream, StreamTooLarge}
  {
    if DecodeStream(id, maxEvents, rows).Success? {
      LoadedStreamIsNumbered(id, maxEvents, rows);
      assert Hold(id, rows, DecodeStream(id, maxEvents, rows).value);
    } else if DecodeRows(id, 0, rows).Failure? {
      BadRowsAreCorrupt(id, 0, rows);
    }
    if rows != [] && |rows| <= maxEvents && rows[0].currentVersion == Integer(|rows|) {
      if events :| Hold(id, rows, events) {
        GoodRowsDecode(id, 0, events, rows);
      }
    }
  }

  /** So replaying what was loaded can fail only because a transition is not allowed. */
  lemma {:induction false} ReplayOfLoadedFailsOnlyOnTransition(id: Id, events: seq<Event>)
    requires ContinuesStream(id, 0, events) && ReplayContinuation(events).Failure?
    ensures ReplayContinuation(events).error.InvalidTransition? && ReplayContinuation(events).error.id == id
  {
    var init := events[..|events| - 1];
    var last := events[|events| - 1];
    assert ContinuesStream(id, 0, init);
    if ReplayContinuation(init).Failure? {
      ReplayOfLoadedFailsOnlyOnTransition(id, init);
    } else {
      ReplayAcceptsLegalStreams(init);
      if init != [] { assert StateOf(init).base.version == |init|; }
    }
  }

  // ---------------------------------------------------------------- the statement

  function EventCells(tables: RawTables, id: Id): map<int, JsonCell> {
    if id in tables.events then tables.events[id] else map[]
  }

  /** The lowest `limit` versions of a stream's event rows, in ascending order. */
  ghost predicate IsLowest(cells: map<int, JsonCell>, limit: int, versions: seq<int>) {
    |versions| <= limit && (forall v | v in versions :: v in cells) &&
    (forall i, j | 0 <= i < j < |versions| :: versions[i] < versions[j]) &&
    (|versions| < limit ==> forall v | v in cells :: v in versions) &&
    (forall v, w | v in versions && w in cells && w !in versions :: v < w)
  }

  /** What the statement may return for a stream: nothing, one row without event, or its lowest rows. */
  ghost predicate Selects(tables: RawTables, id: Id, limit: int, rows: seq<Row>) {
    if id !in tables.heads then rows == []
    else
      var cells := EventCells(tables, id);
      if cells == map[] then rows == [Row(tables.heads[id], NullCell, NotText)]
      else exists versions | IsLowest(cells, limit, versions) :: IsRowsOf(tables, id, versions, rows)
  }

  ghost predicate IsRowsOf(tables: RawTables, id: Id, versions: seq<int>, rows: seq<Row>) {
    id in tables.heads && |rows| == |versions| &&
    forall i | 0 <= i < |rows| ::
      versions[i] in EventCells(tables, id) &&
      rows[i] == Row(tables.heads[id], Integer(versions[i]), EventCells(tables, id)[versions[i]])
  }

  /** The raw cells of tables that append has written. */
  function RawOf(tables: Tables): RawTables {
    RawTables(map id | id in tables.heads :: Integer(tables.heads[id]),
              map id | id in tables.rows :: map v | v in tables.rows[id] :: JsonText(Some(tables.rows[id][v])))
  }

  lemma FirstAndLast(versions: seq<int>)
    ensures versions != [] ==> versions[0] in versions && versions[|versions| - 1] in versions
  {
  }

  lemma {:induction false} AscendingFromOne(head: int, versions: seq<int>)
    requires forall i, j | 0 <= i < j < |versions| :: versions[i] < versions[j]
    requires forall v :: v in versions <==> 1 <= v <= head
    requires head >= 0
    ensures |versions| == head && forall i | 0 <= i < |versions| :: versions[i] == i + 1
    decreases |versions|
  {
    FirstAndLast(versions);
    if head > 0 {
      assert head in versions;
      var last := |versions| - 1;
      var k :| 0 <= k < |versions| && versions[k] == head;
      assert k == last;
      var init := versions[..last];
      forall v ensures v in init <==> 1 <= v <= head - 1 {
        if v in init {
          var i :| 0 <= i < |init| && init[i] == v;
          assert versions[i] < versions[last] && versions[i] in versions;
        }
        if 1 <= v <= head - 1 {
          assert v in versions;
          var i :| 0 <= i < |versions| && versions[i] == v;
          assert i < last && init[i] == v;
        }
      }
      AscendingFromOne(head - 1, init);
      forall i | 0 <= i < |versions| ensures versions[i] == i + 1 {
        if i < last { assert init[i] == i + 1; }
      }
    }
  }

  lemma SelectedRows(tables: Tables, id: Id, limit: int, rows: seq<Row>)
    requires GoodTables(tables) && id in tables.heads && HeadOf(tables, id) < limit
    requires Selects(RawOf(tables), id, limit, rows)
    ensures var stream := StreamOf(tables, id);
      |rows| == |stream| == tables.heads[id] && forall i | 0 <= i < |rows| ::
        rows[i].currentVersion == Integer(tables.heads[id]) && RowHolds(rows[i], stream[i])
  {
    var head := tables.heads[id];
    var raw := RawOf(tables);
    var cells := EventCells(raw, id);
    assert GoodRows(id, head, RowsOf(tables, id));
    assert 1 in RowsOf(tables, id);
    assert forall v :: v in cells <==> 1 <= v <= head;
    assert 1 in cells;
    var versions :| IsLowest(cells, limit, versions) && IsRowsOf(raw, id, versions, rows);
    AllRowsSelected(cells, head, limit, versions);
    AscendingFromOne(head, versions);
    forall i | 0 <= i < |rows| ensures RowHolds(rows[i], StreamOf(tables, id)[i]) {
      assert versions[i] == i + 1;
      assert rows[i].eventJson == cells[i + 1];
    }
  }

  lemma AllRowsSelected(cells: map<int, JsonCell>, head: int, limit: int, versions: seq<int>)
    requires 1 <= head < limit && (forall v :: v in cells <==> 1 <= v <= head) && IsLowest(cells, limit, versions)
    ensures forall v :: v in versions <==> 1 <= v <= head
  {
    FirstAndLast(versions);
    if versions != [] {
      AscendingIsLong(versions, 0);
    }
  }

  lemma {:induction false} AscendingIsLong(versions: seq<int>, i: nat)
    requires forall i, j | 0 <= i < j < |versions| :: versions[i] < versions[j]
    requires i < |versions|
    ensures versions[|versions| - 1] >= versions[i] + (|versions| - 1 - i)
    decreases |versions| - i
  {
    if i + 1 < |versions| { AscendingIsLong(versions, i + 1); }
  }

  /**
   * For tables that appends have written within the bound, a load never reports corruption or size, and
   * returns the stream of the abstract log.
   */
  lemma LoadReturnsTheStream(tables: Tables, id: Id, maxEvents: int, rows: seq<Row>)
    requires GoodTables(tables) && HeadOf(tables, id) <= maxEvents <= MAX_SAFE
    requires Selects(RawOf(tables), id, maxEvents + 1, rows)
    ensures DecodeStream(id, maxEvents, rows) == Success(Stream(LogOf(tables), id))
  {
    var stream := StreamOf(tables, id);
    assert Stream(LogOf(tables), id) == stream;
    if id in tables.heads {
      assert GoodRows(id, HeadOf(tables, id), RowsOf(tables, id));
      SelectedRows(tables, id, maxEvents + 1, rows);
      GoodRowsDecode(id, 0, stream, rows);
    } else {
      assert stream == [];
    }
  }

  /** There is always something for the statement to return. */
  lemma SomeRowsAreSelected(tables: Tables, id: Id, limit: int) returns (rows: seq<Row>)
    requires GoodTables(tables) && HeadOf(tables, id) < limit
    ensures Selects(RawOf(tables), id, limit, rows)
  {
    if id !in tables.heads {
      rows := [];
    } else {
      var head, cells := tables.heads[id], EventCells(RawOf(tables), id);
      assert GoodRows(id, head, RowsOf(tables, id));
      assert 1 in RowsOf(tables, id);
      assert 1 in cells;
      var versions := seq(head, i requires 0 <= i < head => i + 1);
      rows := seq(head, i requires 0 <= i < head => Row(Integer(head), Integer(i + 1), cells[i + 1]));
      forall v | v in cells ensures v in versions {
        assert versions[v - 1] == v;
      }
      assert IsLowest(cells, limit, versions) && IsRowsOf(RawOf(tables), id, versions, rows);
    }
  }

  /** So it is after any run of concurrent appends with one bound, whichever rows the statement returns. */
  lemma LoadAfterAnyRun(maxEvents: nat, actions: seq<Action>, id: Id, rows: seq<Row>)
    requires maxEvents <= MAX_SAFE && Selects(RawOf(Run(maxEvents, actions).tables), id, maxEvents + 1, rows)
    ensures GoodTables(Run(maxEvents, actions).tables)
    ensures DecodeStream(id, maxEvents, rows) == Success(Stream(LogOf(Run(maxEvents, actions).tables), id))
  {
    PostgresRuns.RunKeepsInv(maxEvents, actions);
    PostgresRuns.HeadsStayWithinBound(maxEvents, actions, id);
    LoadReturnsTheStream(Run(maxEvents, actions).tables, id, maxEvents, rows);
  }
}
