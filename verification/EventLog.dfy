/**
 * The event-store contract: an append-only log of streams with an atomic compare-and-append, and the
 * validation every store applies to a batch before it is stored.
 */
module EventLog {
  import opened Text16
  import opened Domain

  type Log = map<Id, seq<Event>>

  function Stream(log: Log, id: Id): seq<Event> {
    if id in log then log[id] else []
  }

  /** No stream is stored empty: version zero means the stream does not exist. */
  predicate NoGhosts(log: Log) { forall id | id in log :: log[id] != [] }

  function Extend(log: Log, id: Id, events: seq<Event>): (r: Log)
    ensures Stream(r, id) == Stream(log, id) + events
    ensures forall other | other != id :: Stream(r, other) == Stream(log, other)
    ensures NoGhosts(log) ==> NoGhosts(r)
  {
    if events == [] then log else log[id := Stream(log, id) + events]
  }

  ghost predicate Grows(before: Log, after: Log) {
    forall id :: Stream(before, id) <= Stream(after, id)
  }

  // ---------------------------------------------------------------- batch validation

  const MAX_SAFE := 9_007_199_254_740_991

  predicate IsHex(c: CodeUnit) { 48 <= c <= 57 || 97 <= c <= 102 || 65 <= c <= 70 }

  predicate IsTokenHash(t: Text) { |t| == 64 && forall c | c in t :: IsHex(c) }

  /** The instants whose ISO text has a four-digit year, which is what the stored-event schema reads. */
  predicate IsInstant(t: Time) { FIRST_INSTANT <= t <= LAST_INSTANT }

  const FIRST_INSTANT := -62_167_219_200_000
  const LAST_INSTANT := 253_402_300_799_999

  /** The stored-event schema: identity, positive safe version, readable instants, and no empty texts. */
  predicate Storable(e: Event) {
    e.schemaVersion == SCHEMA_VERSION && e.continuationId != [] && 0 < e.version <= MAX_SAFE &&
    IsInstant(e.occurredAt) &&
    (e.WasCreated? ==> e.correlationId != [] && IsInstant(e.expiresAt) && IsTokenHash(e.resumeTokenHash)) &&
    (e.WasResumed? ==> e.idempotencyKey != [])
  }

  /** What the schema says of each type of event. */
  ghost predicate EventFits(e: Event) {
    e.schemaVersion == 1 && |e.continuationId| >= 1 && 1 <= e.version <= 9_007_199_254_740_991 &&
    HasFourDigitYear(e.occurredAt) &&
    match e
    case WasCreated(_, _, _, _, correlationId, expiresAt, _, _, resumeTokenHash) =>
      |correlationId| >= 1 && HasFourDigitYear(expiresAt) && |resumeTokenHash| == 64 &&
      forall i | 0 <= i < 64 :: IsHexDigit(resumeTokenHash[i])
    case WasResumed(_, _, _, _, idempotencyKey, _) => |idempotencyKey| >= 1
    case WasCancelled(_, _, _, _, _) => true
    case WasExpired(_, _, _, _) => true
  }

  ghost predicate IsHexDigit(c: CodeUnit) {
    Ascii("0")[0] <= c <= Ascii("9")[0] || Ascii("a")[0] <= c <= Ascii("f")[0] || Ascii("A")[0] <= c <= Ascii("F")[0]
  }

  const DAY := 86_400_000

  /** 719528 days before 1970 the year 0 begins, and 2932897 days after it the year 9999 is over. */
  ghost predicate HasFourDigitYear(t: Time) { -719_528 * DAY <= t < 2_932_897 * DAY }

  lemma StorableMeansFitting(e: Event)
    ensures Storable(e) <==> EventFits(e)
  {
    assert forall c: CodeUnit :: IsHex(c) <==> IsHexDigit(c);
    if e.WasCreated? {
      assert forall i | 0 <= i < |e.resumeTokenHash| :: e.resumeTokenHash[i] in e.resumeTokenHash;
    }
  }

  /** The first complaint about a batch, in batch order: identity, then version, then schema. */
  function BatchError(id: Id, expected: int, events: seq<Event>): Option<Error>
    decreases |events|
  {
    if events == [] then None
    else if events[0].continuationId != id then Some(IdMismatch(id, events[0].continuationId))
    else if events[0].version != expected + 1 then Some(VersionConflict(id, expected + 1, events[0].version))
    else if !Storable(events[0]) then Some(BadEvent)
    else BatchError(id, expected + 1, events[1..])
  }

  predicate ContinuesStream(id: Id, expected: int, events: seq<Event>) {
    forall i | 0 <= i < |events| ::
      events[i].continuationId == id && events[i].version == expected + i + 1 && Storable(events[i])
  }

  /** A batch passes exactly when it continues the stream it is aimed at, event by event. */
  lemma {:induction false} BatchPassesExactly(id: Id, expected: int, events: seq<Event>)
    ensures BatchError(id, expected, events).None? <==> ContinuesStream(id, expected, events)
    decreases |events|
  {
    if events != [] {
      BatchPassesExactly(id, expected + 1, events[1..]);
      if ContinuesStream(id, expected, events) {
        forall i | 0 <= i < |events[1..]|
          ensures events[1..][i].continuationId == id && events[1..][i].version == expected + 1 + i + 1 &&
                  Storable(events[1..][i])
        {
          assert events[1..][i] == events[i + 1];
        }
      }
      if ContinuesStream(id, expected + 1, events[1..]) && events[0].continuationId == id &&
         events[0].version == expected + 1 && Storable(events[0]) {
        forall i | 0 <= i < |events|
          ensures events[i].continuationId == id && events[i].version == expected + i + 1 && Storable(events[i])
        {
          if i > 0 { assert events[i] == events[1..][i - 1]; }
        }
      }
    }
  }

  /** What a complaint about one event of a batch says. */
  ghost predicate IsBatchComplaint(id: Id, version: int, e: Event, error: Error) {
    match error
    case IdMismatch(expected, actual) => expected == id != actual == e.continuationId
    case VersionConflict(about, expected, actual) =>
      about == id == e.continuationId && expected == version != actual == e.version
    case BadEvent => e.continuationId == id && e.version == version && !Storable(e)
    case _ => false
  }

  /** The k-th event is the first that does not continue the stream, and that is the complaint about it. */
  ghost predicate BreaksAt(id: Id, expected: int, events: seq<Event>, k: int, error: Error) {
    0 <= k < |events| && ContinuesStream(id, expected, events[..k]) &&
    IsBatchComplaint(id, expected + k + 1, events[k], error)
  }

  /** The error of a batch is the complaint about the first event that does not continue the stream. */
  lemma {:induction false} BatchErrorIsTheFirst(id: Id, expected: int, events: seq<Event>)
    requires BatchError(id, expected, events).Some?
    ensures exists k :: BreaksAt(id, expected, events, k, BatchError(id, expected, events).value)
    decreases |events|
  {
    var error := BatchError(id, expected, events).value;
    if IsBatchComplaint(id, expected + 1, events[0], error) {
      assert BreaksAt(id, expected, events, 0, error);
    } else {
      BatchErrorIsTheFirst(id, expected + 1, events[1..]);
      var k :| BreaksAt(id, expected + 1, events[1..], k, error);
      forall i | 0 <= i < k + 1
        ensures events[i].continuationId == id && events[i].version == expected + i + 1 && Storable(events[i])
      {
        if i > 0 { assert events[i] == events[1..][..k][i - 1]; }
      }
      assert BreaksAt(id, expected, events, k + 1, error);
    }
  }

  /** A log any store can hold: the i-th event of a stream carries the stream's id and version i + 1. */
  predicate WellNumbered(log: Log) {
    NoGhosts(log) && forall id | id in log :: ContinuesStream(id, 0, log[id])
  }

  lemma ExtendKeepsNumbering(log: Log, id: Id, events: seq<Event>)
    requires WellNumbered(log) && ContinuesStream(id, |Stream(log, id)|, events)
    ensures WellNumbered(Extend(log, id, events))
  {
    var after := Extend(log, id, events);
    forall other | other in after ensures ContinuesStream(other, 0, after[other]) {
      if other == id && events != [] {
        var before := Stream(log, id);
        forall i | 0 <= i < |after[id]|
          ensures after[id][i].continuationId == id && after[id][i].version == i + 1 && Storable(after[id][i])
        {
          if i >= |before| { assert after[id][i] == events[i - |before|]; }
        }
      }
    }
  }

  // ---------------------------------------------------------------- the contract

  datatype Appended = Stored(log: Log) | Refused(error: Error)

  /** Compare the stream's version with the caller's and append all events, or none. */
  function CompareAndAppend(log: Log, id: Id, expected: int, events: seq<Event>): Appended {
    var actual := |Stream(log, id)|;
    if actual != expected then Refused(VersionConflict(id, expected, actual))
    else
      match BatchError(id, expected, events)
      case Some(e) => Refused(e)
      case None => Stored(Extend(log, id, events))
  }

  lemma AppendKeepsNumbering(log: Log, id: Id, expected: int, events: seq<Event>)
    requires WellNumbered(log) && CompareAndAppend(log, id, expected, events).Stored?
    ensures var after := CompareAndAppend(log, id, expected, events).log;
      WellNumbered(after) && Grows(log, after) && |Stream(after, id)| == expected + |events|
  {
    BatchPassesExactly(id, expected, events);
    ExtendKeepsNumbering(log, id, events);
  }
}
