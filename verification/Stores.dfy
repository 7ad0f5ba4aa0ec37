/**
 * The in-process and the SQLite store. Both hold serialised events and change their state in place; both
 * are proved against the compare-and-append contract on the log that their texts stand for.
 */
module Stores {
  import opened Text16
  import opened Domain
  import opened EventLog

  // ---------------------------------------------------------------- serialised events

  /** JSON.stringify of a stored event, and JSON.parse with the stored-event schema. */
  datatype Serializer = Serializer(write: Event -> Text, read: Text -> Option<Event>)

  /** Storable events survive being written and read, and nothing else is ever read. */
  ghost predicate Sound(z: Serializer) {
    (forall e | Storable(e) :: z.read(z.write(e)) == Some(e)) &&
    (forall t | z.read(t).Some? :: Storable(z.read(t).value))
  }

  function WriteAll(z: Serializer, events: seq<Event>): (texts: seq<Text>)
    ensures |texts| == |events| && forall k | 0 <= k < |events| :: texts[k] == z.write(events[k])
  {
    seq(|events|, k requires 0 <= k < |events| => z.write(events[k]))
  }

  function ReadAll(z: Serializer, texts: seq<Text>): Result<seq<Event>> {
    if texts == [] then Success([])
    else
      match z.read(texts[0])
      case None => Failure(BadEvent)
      case Some(e) =>
        match ReadAll(z, texts[1..])
        case Failure(x) => Failure(x)
        case Success(rest) => Success([e] + rest)
  }

  lemma {:induction false} WrittenIsRead(z: Serializer, events: seq<Event>)
    requires Sound(z) && forall k | 0 <= k < |events| :: Storable(events[k])
    ensures ReadAll(z, WriteAll(z, events)) == Success(events)
    decreases |events|
  {
    if events != [] {
      assert WriteAll(z, events)[1..] == WriteAll(z, events[1..]);
      WrittenIsRead(z, events[1..]);
      assert events == [events[0]] + events[1..];
    }
  }

  // ---------------------------------------------------------------- in memory

  ghost predicate StreamsHold(z: Serializer, streams: map<Id, seq<Text>>, log: Log) {
    streams.Keys == log.Keys && forall id | id in streams :: streams[id] == WriteAll(z, log[id])
  }

  lemma StreamsExtended(z: Serializer, streams: map<Id, seq<Text>>, log: Log, id: Id, events: seq<Event>)
    requires StreamsHold(z, streams, log)
    ensures var stream := if id in streams then streams[id] else [];
      |stream| == |Stream(log, id)| &&
      StreamsHold(z, if events == [] then streams else streams[id := stream + WriteAll(z, events)],
                  Extend(log, id, events))
  {
    var stream := if id in streams then streams[id] else [];
    assert WriteAll(z, Stream(log, id) + events) == stream + WriteAll(z, events);
  }

  class InMemoryEventStore {
    const serializer: Serializer
    var streams: map<Id, seq<Text>>
    ghost var log: Log

    /** The texts of each stream are those of the events of the log. */
    ghost predicate Valid()
      reads this
    {
      Sound(serializer) && WellNumbered(log) && StreamsHold(serializer, streams, log)
    }

    constructor (serializer: Serializer)
      requires Sound(serializer)
      ensures Valid() && log == map[] && this.serializer == serializer
    {
      this.serializer := serializer;
      streams, log := map[], map[];
    }

    method Load(id: Id) returns (r: Result<seq<Event>>)
      requires Valid()
      ensures r == Success(Stream(log, id))
    {
      r := ReadAll(serializer, if id in streams then streams[id] else []);
      assert ContinuesStream(id, 0, Stream(log, id));
      WrittenIsRead(serializer, Stream(log, id));
    }

    method Append(id: Id, expected: int, events: seq<Event>) returns (error: Option<Error>)
      requires Valid()
      modifies this
      ensures Valid()
      ensures match CompareAndAppend(old(log), id, expected, events)
        case Stored(after) => error.None? && log == after
        case Refused(e) => error == Some(e) && log == old(log)
    {
      var stream := if id in streams then streams[id] else [];
      var actualVersion := |stream|;
      if actualVersion != expected {
        return Some(VersionConflict(id, expected, actualVersion));
      }
      var complaint := BatchError(id, expected, events);
      if complaint.Some? {
        return complaint;
      }
      AppendKeepsNumbering(log, id, expected, events);
      StreamsExtended(serializer, streams, log, id, events);
      var serializedEvents := WriteAll(serializer, events);
      if |serializedEvents| > 0 {
        streams := streams[id := stream + serializedEvents];
      }
      log := Extend(log, id, events);
      error := None;
    }
  }

  // ---------------------------------------------------------------- SQLite: the table

  /** The event table: the serialised rows of each stream under the unique (id, version) constraint. */
  type Table = map<Id, map<int, Text>>

  function RowsOf(table: Table, id: Id): map<int, Text> {
    if id in table then table[id] else map[]
  }

  ghost predicate RowsHold(z: Serializer, rows: map<int, Text>, s: seq<Event>) {
    (forall v :: v in rows <==> 1 <= v <= |s|) && forall v | v in rows :: rows[v] == z.write(s[v - 1])
  }

  ghost predicate TableHolds(z: Serializer, table: Table, log: Log) {
    forall id :: RowsHold(z, RowsOf(table, id), Stream(log, id))
  }

  predicate IsGreatest(m: int, versions: set<int>) { m in versions && forall v | v in versions :: v <= m }

  lemma {:induction false} GreatestExists(versions: set<int>)
    requires versions != {}
    ensures exists m :: IsGreatest(m, versions)
  {
    assert (forall v :: v !in versions) ==> versions == {};
    var v :| v in versions;
    var rest := versions - {v};
    if rest == {} {
      assert versions == {v};
      assert IsGreatest(v, versions);
    } else {
      GreatestExists(rest);
      var m :| IsGreatest(m, rest);
      var greatest := if m > v then m else v;
      assert forall w | w in versions :: w == v || w in rest;
      assert IsGreatest(greatest, versions);
    }
  }

  /** SELECT COALESCE(MAX(version), 0). */
  function MaxVersion(versions: set<int>): (m: int)
    ensures if versions == {} then m == 0 else IsGreatest(m, versions)
  {
    if |versions| == 0 then
      assert versions == {};
      0
    else
      GreatestExists(versions);
      var m :| m in versions && IsGreatest(m, versions);
      m
  }

  lemma MaxVersionIsLength(z: Serializer, rows: map<int, Text>, s: seq<Event>)
    requires RowsHold(z, rows, s)
    ensures MaxVersion(rows.Keys) == |s|
  {
    if s != [] {
      assert |s| in rows.Keys;
      assert MaxVersion(rows.Keys) in rows;
    } else {
      assert forall v :: v !in rows.Keys;
      assert rows.Keys == {};
    }
  }

  lemma NextRow(z: Serializer, rows: map<int, Text>, s: seq<Event>, events: seq<Event>, index: nat)
    requires index < |events| && RowsHold(z, rows, s + events[..index])
    ensures |s| + index + 1 !in rows
    ensures RowsHold(z, rows[|s| + index + 1 := z.write(events[index])], s + events[..index + 1])
  {
    assert s + events[..index + 1] == s + events[..index] + [events[index]];
  }

  /** SELECT version, event_json ... ORDER BY version ASC: the highest version comes last. */
  function Select(rows: map<int, Text>): (r: seq<(int, Text)>)
    decreases |rows|
  {
    if rows.Keys == {} then []
    else
      var last := MaxVersion(rows.Keys);
      Select(rows - {last}) + [(last, rows[last])]
  }

  /** The selected rows of a stream that is held in full: version k + 1 in place k. */
  ghost predicate IsSelection(z: Serializer, selected: seq<(int, Text)>, s: seq<Event>) {
    |selected| == |s| && forall k | 0 <= k < |s| :: selected[k] == (k + 1, z.write(s[k]))
  }

  lemma {:induction false} LastRowSelected(z: Serializer, rows: map<int, Text>, s: seq<Event>)
    requires RowsHold(z, rows, s) && s != []
    ensures Select(rows) == Select(rows - {|s|}) + [(|s|, z.write(s[|s| - 1]))]
    ensures RowsHold(z, rows - {|s|}, s[..|s| - 1])
  {
    MaxVersionIsLength(z, rows, s);
    assert |s| in rows.Keys;
  }

  lemma {:induction false} SelectedRows(z: Serializer, rows: map<int, Text>, s: seq<Event>)
    requires RowsHold(z, rows, s)
    ensures IsSelection(z, Select(rows), s)
    decreases |s|
  {
    if s == [] {
      assert forall v :: v !in rows.Keys;
      assert rows.Keys == {};
    } else {
      LastRowSelected(z, rows, s);
      SelectedRows(z, rows - {|s|}, s[..|s| - 1]);
      SelectionGrows(z, Select(rows - {|s|}), s);
    }
  }

  lemma SelectionGrows(z: Serializer, selected: seq<(int, Text)>, s: seq<Event>)
    requires s != [] && IsSelection(z, selected, s[..|s| - 1])
    ensures IsSelection(z, selected + [(|s|, z.write(s[|s| - 1]))], s)
  {
    forall k | 0 <= k < |s| - 1 ensures selected[k] == (k + 1, z.write(s[k])) {
      assert s[..|s| - 1][k] == s[k];
    }
  }

  // ---------------------------------------------------------------- SQLite: reading rows

  /** The checks on one loaded row: its position, its schema, its stream and its own number. */
  function RowError(z: Serializer, id: Id, index: nat, version: int, text: Text): Option<Error> {
    if version != index + 1 then Some(VersionConflict(id, index + 1, version))
    else
      match z.read(text)
      case None => Some(BadEvent)
      case Some(event) =>
        if event.continuationId != id then Some(IdMismatch(id, event.continuationId))
        else if event.version != version then Some(VersionConflict(id, version, event.version))
        else None
  }

  /** The row has its position, and its text is an event of that stream and that version. */
  ghost predicate InPlace(z: Serializer, id: Id, index: int, version: int, text: Text) {
    version == index + 1 && z.read(text).Some? && z.read(text).value.continuationId == id &&
    z.read(text).value.version == index + 1
  }

  /** What each complaint about a row says: a gap, an unreadable text, another stream, another version. */
  ghost predicate IsComplaint(z: Serializer, id: Id, index: int, version: int, text: Text, e: Error) {
    match e
    case VersionConflict(about, expected, actual) =>
      about == id && expected == index + 1 && actual != index + 1 &&
      (version == actual ||
       (version == index + 1 && z.read(text).Some? && z.read(text).value.continuationId == id &&
        z.read(text).value.version == actual))
    case BadEvent => version == index + 1 && z.read(text).None?
    case IdMismatch(expected, actual) =>
      version == index + 1 && expected == id && actual != id &&
      z.read(text).Some? && z.read(text).value.continuationId == actual
    case _ => false
  }

  lemma RowErrorMeans(z: Serializer, id: Id, index: nat, version: int, text: Text)
    ensures match RowError(z, id, index, version, text)
      case None => InPlace(z, id, index, version, text)
      case Some(e) => !InPlace(z, id, index, version, text) && IsComplaint(z, id, index, version, text, e)
  {
  }

  ghost predicate RowPasses(z: Serializer, id: Id, rows: seq<(int, Text)>, index: int) {
    0 <= index < |rows| && InPlace(z, id, index, rows[index].0, rows[index].1)
  }

  lemma GoodRowPasses(z: Serializer, id: Id, s: seq<Event>, index: nat)
    requires Sound(z) && ContinuesStream(id, 0, s) && index < |s|
    ensures InPlace(z, id, index, index + 1, z.write(s[index]))
    ensures z.read(z.write(s[index])) == Some(s[index])
  {
  }

  /** Check the rows of a load one after another, whatever they are; the first bad one fails the load. */
  method ReadRows(z: Serializer, id: Id, rows: seq<(int, Text)>) returns (r: Result<seq<Event>>)
    ensures match r
      case Success(events) =>
        |events| == |rows| &&
        forall k | 0 <= k < |rows| :: RowPasses(z, id, rows, k) && z.read(rows[k].1) == Some(events[k])
      case Failure(e) =>
        exists k | 0 <= k < |rows| ::
          IsComplaint(z, id, k, rows[k].0, rows[k].1, e) && !RowPasses(z, id, rows, k) &&
          forall j | 0 <= j < k :: RowPasses(z, id, rows, j)
  {
    var events: seq<Event> := [];
    for index := 0 to |rows|
      invariant |events| == index
      invariant forall k | 0 <= k < index :: RowPasses(z, id, rows, k) && z.read(rows[k].1) == Some(events[k])
    {
      var complaint := RowError(z, id, index, rows[index].0, rows[index].1);
      RowErrorMeans(z, id, index, rows[index].0, rows[index].1);
      if complaint.Some? {
        return Failure(complaint.value);
      }
      assert RowPasses(z, id, rows, index);
      events := events + [z.read(rows[index].1).value];
    }
    r := Success(events);
  }

  // ---------------------------------------------------------------- SQLite: the store

  /** The CHECK on the event column passes the text of every event. */
  predicate AllValid(z: Serializer, jsonValid: Text -> bool, events: seq<Event>) {
    forall i | 0 <= i < |events| :: jsonValid(z.write(events[i]))
  }

  /** Where the database fails a call, if it does. */
  datatype Fault = NoFault | AtBegin | AtSelect | AtInsert(index: nat) | AtCommit

  /** The fault is met by an append of n events that gets past its checks. */
  predicate Strikes(fault: Fault, n: nat) { fault.AtCommit? || (fault.AtInsert? && fault.index < n) }

  /** The table with the first rows of a batch inserted. */
  ghost predicate Inserted(
    z: Serializer, jsonValid: Text -> bool, before: Table, table: Table, id: Id, s: seq<Event>, events: seq<Event>,
    index: nat)
    requires index <= |events|
  {
    RowsHold(z, RowsOf(table, id), s + events[..index]) &&
    (forall other | other != id :: RowsOf(table, other) == RowsOf(before, other)) &&
    forall k | 0 <= k < index :: jsonValid(z.write(events[k]))
  }

  lemma OneMoreInserted(
    z: Serializer, jsonValid: Text -> bool, before: Table, table: Table, next: Table, id: Id, s: seq<Event>,
    events: seq<Event>, index: nat, ok: bool)
    requires index < |events| && Inserted(z, jsonValid, before, table, id, s, events, index)
    requires forall other | other != id :: RowsOf(next, other) == RowsOf(table, other)
    requires ok ==> jsonValid(z.write(events[index]))
    requires ok ==> RowsOf(next, id) == RowsOf(table, id)[|s| + index + 1 := z.write(events[index])]
    ensures ok ==> Inserted(z, jsonValid, before, next, id, s, events, index + 1)
    ensures |s| + index + 1 !in RowsOf(table, id)
  {
    NextRow(z, RowsOf(table, id), s, events, index);
  }

  /** `jsonValid` is the database's json_valid, by which the event column checks each text. */
  class SqliteEventStore {
    const serializer: Serializer
    const jsonValid: Text -> bool
    var committed: Table
    var working: Table
    var inTransaction: bool
    ghost var log: Log

    ghost predicate Valid()
      reads this
    {
      Sound(serializer) && !inTransaction && WellNumbered(log) && TableHolds(serializer, committed, log)
    }

    constructor (serializer: Serializer, jsonValid: Text -> bool)
      requires Sound(serializer)
      ensures Valid() && log == map[] && this.serializer == serializer && this.jsonValid == jsonValid
    {
      this.serializer, this.jsonValid := serializer, jsonValid;
      committed, working, inTransaction, log := map[], map[], false, map[];
    }

    method BeginImmediate()
      requires !inTransaction
      modifies this`working, this`inTransaction
      ensures inTransaction && working == committed
    {
      working, inTransaction := committed, true;
    }

    method Rollback()
      requires inTransaction
      modifies this`working, this`inTransaction
      ensures !inTransaction && working == committed
    {
      working, inTransaction := committed, false;
    }

    /** COMMIT: a failing one leaves the transaction open. */
    method Commit(fails: bool) returns (ok: bool)
      requires inTransaction
      modifies this`committed, this`inTransaction
      ensures ok <==> !fails
      ensures if ok then !inTransaction && committed == working else inTransaction && committed == old(committed)
    {
      ok := !fails;
      if ok {
        committed, inTransaction := working, false;
      }
    }

    /** INSERT of one row: refused by the CHECK or the unique constraint, or when the database fails. */
    method Insert(id: Id, version: int, text: Text, fails: bool) returns (ok: bool)
      requires inTransaction
      modifies this`working
      ensures ok <==> !fails && jsonValid(text) && version !in RowsOf(old(working), id)
      ensures RowsOf(working, id) == if ok then RowsOf(old(working), id)[version := text] else RowsOf(old(working), id)
      ensures forall other | other != id :: RowsOf(working, other) == RowsOf(old(working), other)
    {
      ok := !fails && jsonValid(text) && version !in RowsOf(working, id);
      if ok {
        working := working[id := RowsOf(working, id)[version := text]];
      }
    }

    /** Append inside BEGIN IMMEDIATE: on any refusal or fault nothing of the batch remains. */
    method Append(id: Id, expected: int, events: seq<Event>, fault: Fault) returns (error: Option<Error>)
      requires Valid()
      modifies this
      ensures Valid()
      ensures
        if fault.AtBegin? || fault.AtSelect? then error == Some(StoreFailed) && log == old(log)
        else
          match CompareAndAppend(old(log), id, expected, events)
          case Refused(e) => error == Some(e) && log == old(log)
          case Stored(after) =>
            if Strikes(fault, |events|) || !AllValid(serializer, jsonValid, events) then
              error == Some(StoreFailed) && log == old(log)
            else error.None? && log == after
    {
      if fault.AtBegin? {
        return Some(StoreFailed);
      }
      BeginImmediate();
      if fault.AtSelect? {
        Rollback();
        return Some(StoreFailed);
      }
      ghost var stream := Stream(log, id);
      assert RowsHold(serializer, RowsOf(committed, id), stream);
      MaxVersionIsLength(serializer, RowsOf(committed, id), stream);
      var actualVersion := MaxVersion(RowsOf(working, id).Keys);
      if actualVersion != expected {
        Rollback();
        return Some(VersionConflict(id, expected, actualVersion));
      }
      var complaint := BatchError(id, expected, events);
      if complaint.Some? {
        Rollback();
        return complaint;
      }
      var stored := InsertAll(id, stream, events, if fault.AtInsert? then fault.index else |events|);
      if stored {
        stored := Commit(fault.AtCommit?);
      }
      if !stored {
        Rollback();
        return Some(StoreFailed);
      }
      AppendKeepsNumbering(log, id, expected, events);
      TableExtended(serializer, old(committed), committed, log, id, events);
      log := Extend(log, id, events);
      error := None;
    }

    /** The insert loop: it stops at the first row that cannot be inserted. */
    method InsertAll(id: Id, ghost stream: seq<Event>, events: seq<Event>, failing: nat) returns (stored: bool)
      requires inTransaction && RowsHold(serializer, RowsOf(working, id), stream)
      modifies this`working
      ensures stored <==> failing >= |events| && AllValid(serializer, jsonValid, events)
      ensures stored ==> RowsHold(serializer, RowsOf(working, id), stream + events)
      ensures forall other | other != id :: RowsOf(working, other) == RowsOf(old(working), other)
    {
      ghost var before := working;
      var expected := MaxVersion(RowsOf(working, id).Keys);
      MaxVersionIsLength(serializer, RowsOf(working, id), stream);
      assert stream + events[..0] == stream;
      for index := 0 to |events|
        invariant Inserted(serializer, jsonValid, before, working, id, stream, events, index)
        invariant failing >= index
      {
        ghost var table := working;
        var ok := Insert(id, expected + index + 1, serializer.write(events[index]), index == failing);
        OneMoreInserted(serializer, jsonValid, before, table, working, id, stream, events, index, ok);
        if !ok {
          return false;
        }
      }
      assert events[..|events|] == events;
      stored := true;
    }

    /** Load: every row in version order, checked against its position, its stream and its own number. */
    method Load(id: Id) returns (r: Result<seq<Event>>)
      requires Valid()
      ensures r == Success(Stream(log, id))
    {
      ghost var stream := Stream(log, id);
      assert RowsHold(serializer, RowsOf(committed, id), stream);
      SelectedRows(serializer, RowsOf(committed, id), stream);
      var rows := Select(RowsOf(committed, id));
      RowsOfStreamPass(serializer, id, stream, rows);
      r := ReadRows(serializer, id, rows);
      assert r.Success? && r.value == stream;
    }
  }

  lemma RowsOfStreamPass(z: Serializer, id: Id, s: seq<Event>, rows: seq<(int, Text)>)
    requires Sound(z) && ContinuesStream(id, 0, s) && IsSelection(z, rows, s)
    ensures forall k | 0 <= k < |rows| :: RowPasses(z, id, rows, k) && z.read(rows[k].1) == Some(s[k])
  {
    forall k | 0 <= k < |rows| ensures RowPasses(z, id, rows, k) && z.read(rows[k].1) == Some(s[k]) {
      GoodRowPasses(z, id, s, k);
    }
  }

  lemma TableExtended(z: Serializer, before: Table, after: Table, log: Log, id: Id, events: seq<Event>)
    requires TableHolds(z, before, log) && RowsHold(z, RowsOf(after, id), Stream(log, id) + events)
    requires forall other | other != id :: RowsOf(after, other) == RowsOf(before, other)
    ensures TableHolds(z, after, Extend(log, id, events))
  {
    forall other ensures RowsHold(z, RowsOf(after, other), Stream(Extend(log, id, events), other)) {
      if other != id {
        assert RowsHold(z, RowsOf(before, other), Stream(log, other));
      }
    }
  }
}
