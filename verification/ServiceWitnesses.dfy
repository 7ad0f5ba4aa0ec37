/**
 * Two things the service does not promise, shown on every reachable pending continuation: an exact
 * retry can be refused, and a resume can be stamped past the deadline.
 */
module ServiceWitnesses {
  import opened Text16
  import opened JsonText
  import opened Domain
  import opened EventLog
  import opened Service
  import opened ServiceInvariants
  import opened ServiceProofs
  import opened ServiceRuns
  import opened ServiceAlone

  /** One pending continuation, a resume request that fits it, and an operation that has not begun. */
  ghost predicate Resumable(cfg: Config, s: State, r: Request, o: nat) {
    o !in s.ops && r.Resume? && |Stream(s.log, r.continuationId)| == 1 &&
    TokenFits(cfg, r, Stream(s.log, r.continuationId)) && r.idempotencyKey != []
  }

  function Deadline(s: State, id: Id): Time
    requires |Stream(s.log, id)| > 0 && Stream(s.log, id)[0].WasCreated?
  {
    Stream(s.log, id)[0].expiresAt
  }

  function ResumedEvent(r: Request, now: Time): Event
    requires r.Resume?
  {
    WasResumed(SCHEMA_VERSION, r.continuationId, 2, now, r.idempotencyKey, r.resumePayload)
  }

  function Quiet(now: Time): Env { Env(now, [], [], [], NoFault) }

  /** Load and token check: two steps that bring a fitting resume to its clock reading. */
  function Checked(cfg: Config, s: State, o: nat, r: Request, reading: Time): State {
    Apply(cfg, Apply(cfg, Apply(cfg, s, Begin(o, r)), Advance(o, Quiet(reading))), Advance(o, Quiet(reading)))
  }

  lemma LoadedOp(cfg: Config, s: State, o: nat, r: Request, reading: Time)
    requires Inv(cfg, s) && Resumable(cfg, s, r, o)
    ensures var stream := Stream(s.log, r.continuationId);
      Apply(cfg, Apply(cfg, s, Begin(o, r)), Advance(o, Quiet(reading))) ==
      s.(ops := s.ops[o :=
        Op(r, stream, None, None, None, None, CheckToken(StateOf(stream), stream[0].resumeTokenHash))])
  {
    var stream := Stream(s.log, r.continuationId);
    ReplayOfStream(r.continuationId, stream);
    var s1 := Apply(cfg, s, Begin(o, r));
    assert s1.ops[o] == Op(r, stream, None, None, None, None, Start);
  }

  lemma CheckedOp(cfg: Config, s: State, o: nat, r: Request, reading: Time)
    requires Inv(cfg, s) && Resumable(cfg, s, r, o)
    ensures var s' := Checked(cfg, s, o, r, reading);
      var stream := Stream(s.log, r.continuationId);
      s' == s.(ops := s.ops[o := Op(r, stream, Some(reading), None, None, None,
        if reading < Deadline(s, r.continuationId) then Settled(StateOf(stream))
        else AppendExpired(StateOf(stream), WasExpired(SCHEMA_VERSION, r.continuationId, 2, reading)))])
  {
    var stream := Stream(s.log, r.continuationId);
    LoadedOp(cfg, s, o, r, reading);
    var s2 := Apply(cfg, Apply(cfg, s, Begin(o, r)), Advance(o, Quiet(reading)));
    assert stream[0].continuationId == r.continuationId;
    assert Step(cfg, s2.log, o, s2.ops[o], Quiet(reading)) ==
      EnterExpiry(s2.ops[o], StateOf(stream), reading);
  }

  lemma CheckedKeepsInv(cfg: Config, s: State, o: nat, r: Request, reading: Time)
    requires Inv(cfg, s)
    ensures Inv(cfg, Checked(cfg, s, o, r, reading))
  {
    var s1 := Apply(cfg, s, Begin(o, r));
    ApplyKeepsInv(cfg, s, Begin(o, r));
    ApplyKeepsInv(cfg, s1, Advance(o, Quiet(reading)));
    ApplyKeepsInv(cfg, Apply(cfg, s1, Advance(o, Quiet(reading))), Advance(o, Quiet(reading)));
  }

  /** From its clock reading, a resume whose first reading was early commits with any second reading. */
  lemma SettledResumeCommits(cfg: Config, s: State, o: nat, r: Request, now: Time)
    requires r.Resume? && |Stream(s.log, r.continuationId)| == 1 && r.idempotencyKey != []
    requires GoodStream(r.continuationId, Stream(s.log, r.continuationId))
    requires IsInstant(now) && o in s.ops && s.ops[o].request == r
    requires s.ops[o].pc == Settled(StateOf(Stream(s.log, r.continuationId)))
    ensures
      var s' := Apply(cfg, Apply(cfg, s, Advance(o, Quiet(now))), Advance(o, Quiet(now)));
      s'.log == Extend(s.log, r.continuationId, [ResumedEvent(r, now)]) &&
      s'.ops == s.ops[o := s'.ops[o]] && s'.ops[o].committed == Some(ResumedEvent(r, now))
  {
    var stream := Stream(s.log, r.continuationId);
    var s1 := Apply(cfg, s, Advance(o, Quiet(now)));
    assert stream[0].continuationId == r.continuationId && Storable(stream[0]);
    OffersResume(cfg, s, o, r, now);
    OneEventAppends(s.log, r.continuationId, 1, ResumedEvent(r, now));
    StoresResume(cfg, s1, o, r, now, StateOf(stream));
  }

  lemma TwoStepsKeepInv(cfg: Config, s: State, a: Action, b: Action)
    requires Inv(cfg, s)
    ensures Inv(cfg, Apply(cfg, Apply(cfg, s, a), b))
  {
    ApplyKeepsInv(cfg, s, a);
    ApplyKeepsInv(cfg, Apply(cfg, s, a), b);
  }

  /** The second reading stamps the event that is offered. */
  lemma OffersResume(cfg: Config, s: State, o: nat, r: Request, now: Time)
    requires o in s.ops && s.ops[o].request == r && r.Resume? && s.ops[o].pc.Settled?
    requires s.ops[o].pc.current.Pending? && s.ops[o].pc.current.base.version == 1
    ensures Apply(cfg, s, Advance(o, Quiet(now))) ==
      s.(ops := s.ops[o := s.ops[o].(
        stamp := Some(now), pc := AppendTransition(s.ops[o].pc.current, ResumedEvent(r, now)))])
  {
  }

  /** An append the store accepts puts its event in the log and names the operation as its author. */
  lemma StoresResume(cfg: Config, s: State, o: nat, r: Request, now: Time, pending: Envelope)
    requires o in s.ops && r.Resume? && s.ops[o].pc == AppendTransition(pending, ResumedEvent(r, now))
    requires pending.base.version == 1
    requires CompareAndAppend(s.log, r.continuationId, 1, [ResumedEvent(r, now)]) ==
      Stored(Extend(s.log, r.continuationId, [ResumedEvent(r, now)]))
    ensures var n := Apply(cfg, s, Advance(o, Quiet(now)));
      n.log == Extend(s.log, r.continuationId, [ResumedEvent(r, now)]) && n.ops == s.ops[o := n.ops[o]] &&
      n.ops[o].committed == Some(ResumedEvent(r, now))
  {
  }

  // ---------------------------------------------------------------- the runs

  function UpToReading(o: nat, r: Request, reading: Time): seq<Action> {
    [Begin(o, r), Advance(o, Quiet(reading)), Advance(o, Quiet(reading))]
  }

  function Twice(o: nat, now: Time): seq<Action> { [Advance(o, Quiet(now)), Advance(o, Quiet(now))] }

  lemma TwiceIs(cfg: Config, s: State, o: nat, now: Time)
    ensures ApplyAll(cfg, s, Twice(o, now)) == Apply(cfg, Apply(cfg, s, Advance(o, Quiet(now))), Advance(o, Quiet(now)))
  {
    var a := Advance(o, Quiet(now));
    assert [a, a][1..] == [a] && [a][1..] == [];
    assert ApplyAll(cfg, Apply(cfg, s, a), [a]) == Apply(cfg, Apply(cfg, s, a), a);
  }

  lemma UpToReadingIs(cfg: Config, s: State, o: nat, r: Request, reading: Time)
    ensures ApplyAll(cfg, s, UpToReading(o, r, reading)) == Checked(cfg, s, o, r, reading)
  {
    assert UpToReading(o, r, reading)[1..] == Twice(o, reading);
    TwiceIs(cfg, Apply(cfg, s, Begin(o, r)), o, reading);
  }

  /**
   * `resume` reads the clock twice: every run with a pending continuation can go on to commit a resume
   * that is stamped at or after the deadline, with any instant that an event can carry.
   */
  lemma ResumeMayBeStampedLate(cfg: Config, actions: seq<Action>, o: nat, r: Request, early: Time, late: Time)
    requires Resumable(cfg, Run(cfg, actions), r, o) && IsInstant(late)
    requires early < Deadline(Run(cfg, actions), r.continuationId) <= late
    ensures
      var more := UpToReading(o, r, early) + Twice(o, late);
      Stream(Run(cfg, actions + more).log, r.continuationId) ==
        Stream(Run(cfg, actions).log, r.continuationId) + [ResumedEvent(r, late)]
  {
    var s := Run(cfg, actions);
    RunKeepsInv(cfg, actions);
    CheckedOp(cfg, s, o, r, early);
    CheckedKeepsInv(cfg, s, o, r, early);
    SettledResumeCommits(cfg, Checked(cfg, s, o, r, early), o, r, late);
    RunGoesOn(cfg, actions, UpToReading(o, r, early) + Twice(o, late));
    ApplyAllSplits(cfg, s, UpToReading(o, r, early), Twice(o, late));
    UpToReadingIs(cfg, s, o, r, early);
    TwiceIs(cfg, Checked(cfg, s, o, r, early), o, late);
  }

  /** The loser offers its expiry to a stream that is closed. */
  lemma LoserOffers(cfg: Config, s: State, o: nat, stream: seq<Event>)
    requires Inv(cfg, s) && o in s.ops && !s.ops[o].request.Create? && s.ops[o].pc.AppendExpired?
    requires stream == Stream(s.log, s.ops[o].request.continuationId) && |stream| == 2
    ensures Apply(cfg, s, Advance(o, Quiet(0))) == s.(ops := s.ops[o := s.ops[o].(pc := ReloadExpired)])
  {
    var op := s.ops[o];
    assert OpFits(cfg, s.log, op);
    ClosingEvent(cfg, op, stream, op.pc.pending, op.pc.event);
  }

  lemma LoserReloads(cfg: Config, s: State, o: nat, stream: seq<Event>)
    requires o in s.ops && s.ops[o].request.Resume? && s.ops[o].pc.ReloadExpired?
    requires stream == Stream(s.log, s.ops[o].request.continuationId) && |stream| == 2 && LegalStream(stream)
    ensures Apply(cfg, s, Advance(o, Quiet(0))) == s.(ops := s.ops[o := s.ops[o].(pc := Settled(StateOf(stream)))])
  {
    ReplayAcceptsLegalStreams(stream);
  }

  lemma LoserIsTold(cfg: Config, s: State, o: nat, id: Id)
    requires o in s.ops && s.ops[o].request.Resume? && s.ops[o].pc.Settled? && s.ops[o].pc.current.Resumed?
    requires s.ops[o].pc.current.base.continuationId == id
    ensures Apply(cfg, s, Advance(o, Quiet(0))) ==
      s.(ops := s.ops[o := s.ops[o].(pc := Done(Failure(TokenAlreadyUsed(id))))])
  {
  }

  lemma LoserIsToldAfterReload(cfg: Config, s: State, o: nat, stream: seq<Event>, resumedAt: Time)
    requires o in s.ops && s.ops[o].request.Resume? && LegalStream(stream) && |stream| == 2
    requires stream == Stream(s.log, s.ops[o].request.continuationId)
    requires stream[1] == ResumedEvent(s.ops[o].request, resumedAt)
    ensures
      var a := Advance(o, Quiet(0));
      var s1 := s.(ops := s.ops[o := s.ops[o].(pc := ReloadExpired)]);
      Apply(cfg, Apply(cfg, s1, a), a) ==
        s.(ops := s.ops[o := s.ops[o].(pc := Done(Failure(TokenAlreadyUsed(s.ops[o].request.continuationId))))])
  {
    var s1 := s.(ops := s.ops[o := s.ops[o].(pc := ReloadExpired)]);
    LoserReloads(cfg, s1, o, stream);
    var s2 := s.(ops := s.ops[o := s.ops[o].(pc := Settled(StateOf(stream)))]);
    LoserIsTold(cfg, s2, o, s.ops[o].request.continuationId);
  }

  lemma LateLoserIsRefused(cfg: Config, s: State, o: nat, r: Request, resumedAt: Time)
    requires Inv(cfg, s) && r.Resume? && o in s.ops && s.ops[o].request == r && s.ops[o].pc.AppendExpired?
    requires var stream := Stream(s.log, r.continuationId); |stream| == 2 && stream[1] == ResumedEvent(r, resumedAt)
    ensures
      var a := Advance(o, Quiet(0));
      Apply(cfg, Apply(cfg, Apply(cfg, s, a), a), a) ==
        s.(ops := s.ops[o := s.ops[o].(pc := Done(Failure(TokenAlreadyUsed(r.continuationId))))])
  {
    var stream := Stream(s.log, r.continuationId);
    assert GoodStream(r.continuationId, stream);
    LoserOffers(cfg, s, o, stream);
    LoserIsToldAfterReload(cfg, s, o, stream, resumedAt);
  }

  /** The race: the winner reads its clock in time, the loser too late, and the winner commits first. */
  function Race(winner: nat, loser: nat, r: Request, early: Time, late: Time): seq<Action> {
    UpToReading(winner, r, early) + (UpToReading(loser, r, late) + Twice(winner, early))
  }

  function LoserEnds(loser: nat): seq<Action> {
    [Advance(loser, Quiet(0)), Advance(loser, Quiet(0)), Advance(loser, Quiet(0))]
  }

  lemma RaceIsWon(cfg: Config, s: State, winner: nat, loser: nat, r: Request, early: Time, late: Time)
    requires Inv(cfg, s) && Resumable(cfg, s, r, winner) && Resumable(cfg, s, r, loser) && winner != loser
    requires early < Deadline(s, r.continuationId) <= late && IsInstant(early)
    ensures var n := ApplyAll(cfg, s, Race(winner, loser, r, early, late));
      Inv(cfg, n) && loser in n.ops && n.ops[loser].request == r && n.ops[loser].pc.AppendExpired? &&
      Stream(n.log, r.continuationId) == Stream(s.log, r.continuationId) + [ResumedEvent(r, early)]
  {
    var s1 := Checked(cfg, s, winner, r, early);
    CheckedOp(cfg, s, winner, r, early);
    CheckedKeepsInv(cfg, s, winner, r, early);
    var s2 := Checked(cfg, s1, loser, r, late);
    CheckedOp(cfg, s1, loser, r, late);
    CheckedKeepsInv(cfg, s1, loser, r, late);
    SettledResumeCommits(cfg, s2, winner, r, early);
    TwoStepsKeepInv(cfg, s2, Advance(winner, Quiet(early)), Advance(winner, Quiet(early)));
    RaceIs(cfg, s, winner, loser, r, early, late);
  }

  lemma RaceIs(cfg: Config, s: State, winner: nat, loser: nat, r: Request, early: Time, late: Time)
    ensures var s2 := Checked(cfg, Checked(cfg, s, winner, r, early), loser, r, late);
      ApplyAll(cfg, s, Race(winner, loser, r, early, late)) ==
        Apply(cfg, Apply(cfg, s2, Advance(winner, Quiet(early))), Advance(winner, Quiet(early)))
  {
    var s1 := Checked(cfg, s, winner, r, early);
    ApplyAllSplits(cfg, s, UpToReading(winner, r, early), UpToReading(loser, r, late) + Twice(winner, early));
    UpToReadingIs(cfg, s, winner, r, early);
    ApplyAllSplits(cfg, s1, UpToReading(loser, r, late), Twice(winner, early));
    UpToReadingIs(cfg, s1, loser, r, late);
    TwiceIs(cfg, Checked(cfg, s1, loser, r, late), winner, early);
  }

  lemma LoserEndsIs(cfg: Config, s: State, loser: nat)
    ensures var a := Advance(loser, Quiet(0));
      ApplyAll(cfg, s, LoserEnds(loser)) == Apply(cfg, Apply(cfg, Apply(cfg, s, a), a), a)
  {
    assert LoserEnds(loser)[1..] == Twice(loser, 0);
    TwiceIs(cfg, Apply(cfg, s, Advance(loser, Quiet(0))), loser, 0);
  }

  /**
   * An exact retry is not always answered with the stored result. Every run with a pending continuation
   * can go on so that of two identical resumes one commits, and the other, which read its clock after the
   * deadline, loses the race to expire and is told that the token is already used.
   */
  lemma ExactRetryMayBeRefused(
    cfg: Config, actions: seq<Action>, winner: nat, loser: nat, r: Request, early: Time, late: Time)
    requires Resumable(cfg, Run(cfg, actions), r, winner) && Resumable(cfg, Run(cfg, actions), r, loser)
    requires winner != loser && IsInstant(early)
    requires early < Deadline(Run(cfg, actions), r.continuationId) <= late
    ensures var end := Run(cfg, actions + (Race(winner, loser, r, early, late) + LoserEnds(loser)));
      loser in end.ops && end.ops[loser].request == r &&
      end.ops[loser].pc == Done(Failure(TokenAlreadyUsed(r.continuationId))) &&
      Stream(end.log, r.continuationId) ==
        Stream(Run(cfg, actions).log, r.continuationId) + [ResumedEvent(r, early)]
  {
    var s := Run(cfg, actions);
    RunKeepsInv(cfg, actions);
    var won := ApplyAll(cfg, s, Race(winner, loser, r, early, late));
    RaceIsWon(cfg, s, winner, loser, r, early, late);
    LateLoserIsRefused(cfg, won, loser, r, early);
    LoserEndsIs(cfg, won, loser);
    RunGoesOn(cfg, actions, Race(winner, loser, r, early, late) + LoserEnds(loser));
    ApplyAllSplits(cfg, s, Race(winner, loser, r, early, late), LoserEnds(loser));
  }

  // ---------------------------------------------------------------- such states are reached

  /** A single create operation, left alone, leaves a continuation that its token can resume. */
  lemma ResumableIsReached(cfg: Config, id: Id, correlationId: Text, payload: Json, token: Text, key: Text)
    returns (actions: seq<Action>)
    requires id != [] && correlationId != [] && key != [] && IsTokenHash(cfg.hash(token))
    ensures Resumable(cfg, Run(cfg, actions), Resume(id, key, payload, token), 1)
  {
    var r := Create(Some(id), Some(correlationId), Some(1), payload, []);
    var env := Env(0, [], [], token, NoFault);
    actions := [] + Alone(0, r, env, env, env, env, env);
    CreateLeftAlone(cfg, [], 0, r, env, env, env, env, env);
  }
}
