/** Continuation events, envelopes and errors, and the reducer that folds events into an envelope. */
module Domain {
  import opened Text16
  import opened JsonText

  datatype Option<+T> = None | Some(value: T)

  datatype Result<+T> = Success(value: T) | Failure(error: Error)

  type Id = Text

  /** An instant in milliseconds. */
  type Time = int

  datatype Event =
    | WasCreated(schemaVersion: int, continuationId: Id, version: int, occurredAt: Time, correlationId: Text,
                 expiresAt: Time, payload: Json, metadata: seq<Member>, resumeTokenHash: Text)
    | WasResumed(schemaVersion: int, continuationId: Id, version: int, occurredAt: Time,
                 idempotencyKey: Text, resumePayload: Json)
    | WasCancelled(schemaVersion: int, continuationId: Id, version: int, occurredAt: Time, reason: Option<Text>)
    | WasExpired(schemaVersion: int, continuationId: Id, version: int, occurredAt: Time)

  datatype Base = Base(continuationId: Id, correlationId: Text, version: int, createdAt: Time, expiresAt: Time,
                       payload: Json, metadata: seq<Member>)

  datatype Envelope =
    | Pending(base: Base, resumeTokenHash: Text)
    | Resumed(base: Base, resumedAt: Time, idempotencyKey: Text, resumePayload: Json)
    | Cancelled(base: Base, cancelledAt: Time, reason: Option<Text>)
    | Expired(base: Base, expiredAt: Time)

  datatype Status = IsMissing | IsPending | IsResumed | IsCancelled | IsExpired

  datatype EventType = CreatedType | ResumedType | CancelledType | ExpiredType

  datatype Error =
    | NotFound(id: Id)
    | VersionConflict(id: Id, expected: int, actual: int)
    | InvalidTransition(id: Id, from: Status, event: EventType)
    | IdMismatch(expectedId: Id, actualId: Id)
    | UnsupportedSchema(schemaVersion: int)
    | TokenMismatch(id: Id)
    | TokenAlreadyUsed(id: Id)
    | ContinuationExpired(id: Id)
    | ContinuationCancelled(id: Id)
    | IdempotencyConflict(id: Id)
    | BadExpiry
    | BadEvent
    | BadVersion
    | StreamTooLarge
    | CorruptStream
    | StoreFailed

  const SCHEMA_VERSION := 1

  function StatusOf(state: Envelope): Status {
    match state
    case Pending(_, _) => IsPending
    case Resumed(_, _, _, _) => IsResumed
    case Cancelled(_, _, _) => IsCancelled
    case Expired(_, _) => IsExpired
  }

  function TypeOf(event: Event): EventType {
    match event
    case WasCreated(_, _, _, _, _, _, _, _, _) => CreatedType
    case WasResumed(_, _, _, _, _, _) => ResumedType
    case WasCancelled(_, _, _, _, _) => CancelledType
    case WasExpired(_, _, _, _) => ExpiredType
  }

  function TerminalBase(base: Base, version: int): Base {
    base.(version := version)
  }

  function ReduceContinuation(state: Option<Envelope>, event: Event): Result<Envelope> {
    if event.schemaVersion != SCHEMA_VERSION then Failure(UnsupportedSchema(event.schemaVersion))
    else if state.Some? && state.value.base.continuationId != event.continuationId then
      Failure(IdMismatch(state.value.base.continuationId, event.continuationId))
    else
      var expectedVersion := (if state.Some? then state.value.base.version else 0) + 1;
      if event.version != expectedVersion then
        Failure(VersionConflict(event.continuationId, expectedVersion, event.version))
      else if state.None? then
        if !event.WasCreated? then Failure(InvalidTransition(event.continuationId, IsMissing, TypeOf(event)))
        else Success(Pending(
          Base(event.continuationId, event.correlationId, event.version, event.occurredAt, event.expiresAt,
               event.payload, event.metadata),
          event.resumeTokenHash))
      else if event.WasCreated? || !state.value.Pending? then
        Failure(InvalidTransition(state.value.base.continuationId, StatusOf(state.value), TypeOf(event)))
      else
        var base := TerminalBase(state.value.base, event.version);
        match event
        case WasResumed(_, _, _, at, key, payload) => Success(Resumed(base, at, key, payload))
        case WasCancelled(_, _, _, at, reason) => Success(Cancelled(base, at, reason))
        case WasExpired(_, _, _, at) => Success(Expired(base, at))
  }

  /** What each refusal of the reducer says of the event and the state it was put to. */
  lemma RefusalsSayWhatIsWrong(state: Option<Envelope>, event: Event)
    requires ReduceContinuation(state, event).Failure?
    ensures match ReduceContinuation(state, event).error
      case UnsupportedSchema(schemaVersion) => schemaVersion == event.schemaVersion != 1
      case IdMismatch(expected, actual) =>
        state.Some? && state.value.base.continuationId == expected != actual == event.continuationId
      case VersionConflict(id, expected, actual) =>
        id == event.continuationId && expected != actual == event.version &&
        expected == if state.None? then 1 else state.value.base.version + 1
      case InvalidTransition(id, from, offered) =>
        id == event.continuationId && offered == TypeOf(event) &&
        if state.None? then from == IsMissing && offered != CreatedType
        else from == StatusOf(state.value) && (from != IsPending || offered == CreatedType)
      case _ => false
  {
  }

  function ReplayContinuation(events: seq<Event>): Result<Option<Envelope>> {
    if events == [] then Success(None)
    else
      match ReplayContinuation(events[..|events| - 1])
      case Failure(e) => Failure(e)
      case Success(state) =>
        match ReduceContinuation(state, events[|events| - 1])
        case Failure(e) => Failure(e)
        case Success(next) => Success(Some(next))
  }

  // ---------------------------------------------------------------- what replay accepts

  predicate Opens(e: Event) {
    e.WasCreated? && e.schemaVersion == SCHEMA_VERSION && e.version == 1
  }

  predicate Closes(first: Event, e: Event) {
    !e.WasCreated? && e.schemaVersion == SCHEMA_VERSION && e.version == 2 && e.continuationId == first.continuationId
  }

  /** Nothing, a creation, or a creation and one terminal event of the same continuation. */
  predicate LegalStream(events: seq<Event>) {
    events == [] || (|events| <= 2 && Opens(events[0]) && (|events| == 2 ==> Closes(events[0], events[1])))
  }

  /** The envelope a legal stream stands for, written down field by field. */
  function StateOf(events: seq<Event>): Envelope
    requires events != [] && LegalStream(events)
  {
    var c := events[0];
    var base := Base(c.continuationId, c.correlationId, |events|, c.occurredAt, c.expiresAt, c.payload, c.metadata);
    if |events| == 1 then Pending(base, c.resumeTokenHash)
    else
      match events[1]
      case WasResumed(_, _, _, at, key, payload) => Resumed(base, at, key, payload)
      case WasCancelled(_, _, _, at, reason) => Cancelled(base, at, reason)
      case WasExpired(_, _, _, at) => Expired(base, at)
  }

  /** Replay accepts exactly the legal streams, and yields the envelope they stand for. */
  lemma {:induction false} ReplayAcceptsLegalStreams(events: seq<Event>)
    ensures ReplayContinuation(events).Success? <==> LegalStream(events)
    ensures LegalStream(events) ==>
      ReplayContinuation(events) == Success(if events == [] then None else Some(StateOf(events)))
  {
    if events != [] {
      var init := events[..|events| - 1];
      ReplayAcceptsLegalStreams(init);
      if |events| == 2 {
        assert init[0] == events[0];
      }
    }
  }

  /** A resumed, cancelled or expired continuation accepts no further event whatever. */
  lemma TerminalIsFinal(state: Envelope, event: Event)
    requires !state.Pending?
    ensures ReduceContinuation(Some(state), event).Failure?
  {
  }

  /** What every transition keeps: all of the base but the version, which grows by one. */
  lemma TransitionKeepsBase(state: Envelope, event: Event)
    requires ReduceContinuation(Some(state), event).Success?
    ensures var next := ReduceContinuation(Some(state), event).value;
      state.Pending? && !next.Pending? && next.base == state.base.(version := state.base.version + 1)
  {
  }
}
