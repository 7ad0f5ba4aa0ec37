/**
 * Whole runs of the service: the properties that hold in every state any interleaving of any number
 * of operations can reach, with crashes, lost acknowledgements and arbitrary clocks.
 */
module ServiceRuns {
  import opened Domain
  import opened EventLog
  import opened Service
  import opened ServiceInvariants
  import opened ServiceProofs

  // ---------------------------------------------------------------- every run keeps the invariant

  lemma CommittedIsInLog(cfg: Config, log: Log, op: Op)
    requires GoodLog(log) && OpFits(cfg, log, op) && op.committed.Some?
    ensures var c := op.committed.value;
      var s := Stream(log, c.continuationId);
      1 <= c.version <= |s| && s[c.version - 1] == c &&
      (op.request.Create? <==> c.version == 1)
  {
  }

  lemma FactsOfStep(cfg: Config, log: Log, o: nat, op: Op, env: Env)
    requires GoodLog(log) && OpFits(cfg, log, op)
    ensures var e := Step(cfg, log, o, op, env);
      e.fact.Some? ==>
        e.op.committed == op.committed && !e.op.pc.ObserveExpired? && !e.op.pc.Observe? &&
        e.fact.value.op == o && FactFits(e.fact.value, map[o := e.op]) &&
        (e.fact.value.Transitioned? ==> op.pc.ObserveExpired? || op.pc.Observe?)
  {
    if op.pc.ObserveExpired? || op.pc.Observe? {
      ObservationFits(cfg, log, o, op, env);
    } else if !op.pc.RejectToken? {
      OnlyObserversReport(cfg, log, o, op, env);
    }
  }

  lemma OnlyObserversReport(cfg: Config, log: Log, o: nat, op: Op, env: Env)
    requires !op.pc.ObserveExpired? && !op.pc.Observe? && !op.pc.RejectToken?
    ensures Step(cfg, log, o, op, env).fact.None?
  {
    match op.pc
    case Start =>
    case Settled(_) =>
    case CheckToken(_, _) =>
    case RecheckToken(_, _, _) =>
    case Reload(_) =>
    case ReloadExpired =>
    case AppendCreated(_) =>
    case AppendExpired(_, _) =>
    case AppendTransition(_, _) =>
    case _ =>
  }

  lemma ObservationFits(cfg: Config, log: Log, o: nat, op: Op, env: Env)
    requires GoodLog(log) && OpFits(cfg, log, op) && (op.pc.ObserveExpired? || op.pc.Observe?)
    ensures var e := Step(cfg, log, o, op, env);
      e.op.committed == op.committed && !e.op.pc.ObserveExpired? && !e.op.pc.Observe? && e.fact.Some? &&
      e.fact.value.op == o && e.fact.value.Transitioned? && FactFits(e.fact.value, map[o := e.op])
  {
    var state := if op.pc.Observe? then op.pc.next else op.pc.expired;
    assert op.committed.Some? && state.base.version == op.committed.value.version;
    assert StatusOf(state) == StatusAfter(op.committed.value);
  }

  ghost predicate LeavesHistory(op: Op, e: Effect) {
    e.op.request == op.request && e.op.seen == op.seen && (e.fact.Some? ==> e.append.None?) &&
    (!Appends(op.pc) ==> e.append.None? && e.op.committed == op.committed) && (e.op.pc.Crashed? ==> op.pc.Crashed?)
  }

  /** What every step leaves alone, whatever the state. */
  lemma StepShape(cfg: Config, log: Log, o: nat, op: Op, env: Env)
    ensures LeavesHistory(op, Step(cfg, log, o, op, env))
  {
    if Appends(op.pc) {
      AppendShape(cfg, log, o, op, env);
    } else {
      ReadingShape(cfg, log, o, op, env);
    }
  }

  lemma AppendShape(cfg: Config, log: Log, o: nat, op: Op, env: Env)
    requires Appends(op.pc)
    ensures LeavesHistory(op, Step(cfg, log, o, op, env))
  {
    match op.pc
    case AppendCreated(_) =>
    case AppendExpired(_, _) =>
    case AppendTransition(_, _) =>
  }

  lemma ReadingShape(cfg: Config, log: Log, o: nat, op: Op, env: Env)
    requires !Appends(op.pc)
    ensures LeavesHistory(op, Step(cfg, log, o, op, env))
  {
    match op.pc
    case Start =>
    case Settled(state) =>
    case CheckToken(_, _) =>
    case RecheckToken(_, _, _) =>
    case Reload(_) =>
    case ReloadExpired =>
    case _ =>
  }

  lemma AppendPlace(cfg: Config, log: Log, o: nat, op: Op, env: Env)
    requires GoodLog(log) && OpFits(cfg, log, op)
    requires op.pc.AppendCreated? || op.pc.AppendExpired? || op.pc.AppendTransition?
    ensures op.committed.None?
    ensures var e := Step(cfg, log, o, op, env);
      if e.append.Some? then
        e.op.committed == e.append && e.append.value.version == |Stream(log, e.append.value.continuationId)| + 1
      else e.op.committed == op.committed
  {
    if !op.pc.AppendCreated? {
      ClosingEvent(cfg, op, Stream(log, op.request.continuationId), op.pc.pending, op.pc.event);
    }
  }

  /** A step either appends one event at the first free place, or leaves what was committed alone. */
  lemma HistoryOfStep(cfg: Config, log: Log, o: nat, op: Op, env: Env)
    requires GoodLog(log) && OpFits(cfg, log, op)
    ensures var e := Step(cfg, log, o, op, env);
      e.fact.Some? ==> e.append.None?
    ensures var e := Step(cfg, log, o, op, env);
      if e.append.Some? then
        var c := e.append.value;
        op.committed.None? && e.op.committed == Some(c) && c.version == |Stream(log, c.continuationId)| + 1
      else e.op.committed == op.committed
  {
    StepShape(cfg, log, o, op, env);
    if op.pc.AppendCreated? || op.pc.AppendExpired? || op.pc.AppendTransition? {
      AppendPlace(cfg, log, o, op, env);
    }
  }

  lemma AppendKeepsAuthors(log: Log, ops: map<nat, Op>, o: nat, op: Op, c: Event)
    requires EveryEventHasAuthor(log, ops) && o in ops && ops[o].committed.None? && op.committed == Some(c)
    ensures EveryEventHasAuthor(Extend(log, c.continuationId, [c]), ops[o := op])
  {
    var log', ops' := Extend(log, c.continuationId, [c]), ops[o := op];
    assert HasAuthor(c, ops') by { assert ops'[o].committed == Some(c); }
    forall id, k | 0 <= k < |Stream(log', id)| ensures HasAuthor(Stream(log', id)[k], ops') {
      var e := Stream(log', id)[k];
      if k < |Stream(log, id)| {
        assert e == Stream(log, id)[k];
        assert HasAuthor(e, ops);
        var p :| p in ops && ops[p].committed == Some(e);
        assert ops'[p].committed == Some(e);
      } else {
        assert e == c;
      }
    }
  }

  lemma MoveKeepsAuthors(log: Log, ops: map<nat, Op>, o: nat, op: Op)
    requires EveryEventHasAuthor(log, ops) && (o in ops ==> op.committed == ops[o].committed)
    ensures EveryEventHasAuthor(log, ops[o := op])
  {
    var ops' := ops[o := op];
    forall id, k | 0 <= k < |Stream(log, id)| ensures HasAuthor(Stream(log, id)[k], ops') {
      var e := Stream(log, id)[k];
      assert HasAuthor(e, ops);
      var p :| p in ops && ops[p].committed == Some(e);
      assert ops'[p].committed == Some(e);
    }
  }

  lemma AdvanceKeepsOneAuthor(cfg: Config, s: State, o: nat, env: Env)
    requires Inv(cfg, s) && o in s.ops
    ensures OneAuthor(s.ops[o := Step(cfg, s.log, o, s.ops[o], env).op])
  {
    var e := Step(cfg, s.log, o, s.ops[o], env);
    var ops' := s.ops[o := e.op];
    HistoryOfStep(cfg, s.log, o, s.ops[o], env);
    if e.append.Some? {
      forall p | p in s.ops && p != o && s.ops[p].committed.Some?
        ensures !SamePlace(s.ops[p].committed.value, e.append.value)
      {
        CommittedIsInLog(cfg, s.log, s.ops[p]);
      }
    }
  }

  lemma AdvanceKeepsFacts(cfg: Config, s: State, o: nat, env: Env)
    requires Inv(cfg, s) && o in s.ops
    ensures var s' := Apply(cfg, s, Advance(o, env)); FactsFit(s'.facts, s'.ops)
  {
    var op := s.ops[o];
    var e := Step(cfg, s.log, o, op, env);
    var s' := Apply(cfg, s, Advance(o, env));
    HistoryOfStep(cfg, s.log, o, op, env);
    FactsOfStep(cfg, s.log, o, op, env);
    forall i | 0 <= i < |s.facts| ensures FactFits(s.facts[i], s'.ops) {
      assert FactFits(s.facts[i], s.ops);
      if s.facts[i].op == o {
        ReportedOpsOnlyFinish(cfg, s.log, o, op, env);
      }
    }
    if e.fact.Some? {
      NewFactFits(s.facts, s.ops, s'.ops, e.fact.value, op);
    }
  }

  lemma NewFactFits(facts: seq<Fact>, ops: map<nat, Op>, ops': map<nat, Op>, f: Fact, op: Op)
    requires FactsFit(facts, ops) && f.op in ops && ops[f.op] == op
    requires forall i | 0 <= i < |facts| :: FactFits(facts[i], ops')
    requires FactFits(f, ops') && (f.Transitioned? ==> op.pc.ObserveExpired? || op.pc.Observe?)
    ensures FactsFit(facts + [f], ops')
  {
    forall i | 0 <= i < |facts| && facts[i].Transitioned? && f.Transitioned? ensures facts[i].op != f.op {
      assert FactFits(facts[i], ops);
    }
  }

  /** An operation that has committed and is past its observation never observes again. */
  lemma ReportedOpsOnlyFinish(cfg: Config, log: Log, o: nat, op: Op, env: Env)
    requires GoodLog(log) && OpFits(cfg, log, op) && !op.pc.ObserveExpired? && !op.pc.Observe?
    requires op.committed.Some? || op.pc.Done?
    ensures var e := Step(cfg, log, o, op, env);
      (op.pc.Done? ==> e.op.pc.Done?) && !e.op.pc.ObserveExpired? && !e.op.pc.Observe? && e.op.committed == op.committed
  {
  }

  lemma OthersStillFit(cfg: Config, log: Log, ops: map<nat, Op>, log': Log, o: nat, op: Op)
    requires GoodLog(log) && GoodLog(log') && Grows(log, log') && OpFits(cfg, log', op) && AllFit(cfg, log, ops)
    ensures AllFit(cfg, log', ops[o := op])
  {
    forall p | p in ops && p != o ensures OpFits(cfg, log', ops[p]) {
      GrowthKeepsOp(cfg, log, log', ops[p]);
    }
  }

  lemma AdvanceKeepsOps(cfg: Config, s: State, o: nat, env: Env)
    requires GoodLog(s.log) && AllFit(cfg, s.log, s.ops) && o in s.ops
    ensures var s' := Apply(cfg, s, Advance(o, env));
      GoodLog(s'.log) && Grows(s.log, s'.log) && AllFit(cfg, s'.log, s'.ops)
  {
    var e := Step(cfg, s.log, o, s.ops[o], env);
    StepFits(cfg, s.log, o, s.ops[o], env);
    assert Grows(s.log, After(s.log, e));
    OthersStillFit(cfg, s.log, s.ops, After(s.log, e), o, e.op);
  }

  lemma AdvanceKeepsAuthors(cfg: Config, s: State, o: nat, env: Env)
    requires Inv(cfg, s) && o in s.ops
    ensures var s' := Apply(cfg, s, Advance(o, env)); EveryEventHasAuthor(s'.log, s'.ops)
  {
    var e := Step(cfg, s.log, o, s.ops[o], env);
    HistoryOfStep(cfg, s.log, o, s.ops[o], env);
    if e.append.Some? {
      AppendKeepsAuthors(s.log, s.ops, o, e.op, e.append.value);
    } else {
      MoveKeepsAuthors(s.log, s.ops, o, e.op);
    }
  }

  lemma AdvanceKeepsInv(cfg: Config, s: State, o: nat, env: Env)
    requires Inv(cfg, s) && o in s.ops
    ensures Inv(cfg, Apply(cfg, s, Advance(o, env))) && Grows(s.log, Apply(cfg, s, Advance(o, env)).log)
  {
    AdvanceKeepsOps(cfg, s, o, env);
    AdvanceKeepsAuthors(cfg, s, o, env);
    AdvanceKeepsOneAuthor(cfg, s, o, env);
    AdvanceKeepsFacts(cfg, s, o, env);
  }

  lemma OtherOpsKeepFacts(facts: seq<Fact>, ops: map<nat, Op>, o: nat, op: Op)
    requires FactsFit(facts, ops)
    requires o in ops ==>
      op.committed == ops[o].committed && !op.pc.ObserveExpired? && !op.pc.Observe? && !ops[o].pc.Done?
    ensures FactsFit(facts, ops[o := op])
  {
    forall i | 0 <= i < |facts| ensures FactFits(facts[i], ops[o := op]) {
      assert FactFits(facts[i], ops);
    }
  }

  lemma ReplacedOpKeepsInv(cfg: Config, s: State, o: nat, op: Op)
    requires Inv(cfg, s) && OpFits(cfg, s.log, op)
    requires if o in s.ops then
        op.committed == s.ops[o].committed && op.pc.Crashed? && !s.ops[o].pc.Done?
      else op.committed.None?
    ensures Inv(cfg, s.(ops := s.ops[o := op]))
  {
    MoveKeepsAuthors(s.log, s.ops, o, op);
    OtherOpsKeepFacts(s.facts, s.ops, o, op);
  }

  lemma CrashedOpFits(cfg: Config, log: Log, op: Op)
    requires OpFits(cfg, log, op)
    ensures OpFits(cfg, log, op.(pc := Crashed))
  {
  }

  /** No arrival, step or crash breaks the invariant, and none takes an event out of the log. */
  lemma ApplyKeepsInv(cfg: Config, s: State, a: Action)
    requires Inv(cfg, s)
    ensures Inv(cfg, Apply(cfg, s, a)) && Grows(s.log, Apply(cfg, s, a).log)
  {
    match a
    case Begin(o, request) => BeginKeepsInv(cfg, s, o, request);
    case Advance(o, env) =>
      if o in s.ops { AdvanceKeepsInv(cfg, s, o, env); }
    case Crash(o) => CrashKeepsInv(cfg, s, o);
  }

  lemma BeginKeepsInv(cfg: Config, s: State, o: nat, request: Request)
    requires Inv(cfg, s)
    ensures Inv(cfg, Apply(cfg, s, Begin(o, request))) && Apply(cfg, s, Begin(o, request)).log == s.log
  {
    if o !in s.ops {
      var seen := if request.Create? then [] else Stream(s.log, request.continuationId);
      var op := Op(request, seen, None, None, None, None, Start);
      assert Apply(cfg, s, Begin(o, request)) == s.(ops := s.ops[o := op]);
      ReplacedOpKeepsInv(cfg, s, o, op);
    }
  }

  lemma CrashKeepsInv(cfg: Config, s: State, o: nat)
    requires Inv(cfg, s)
    ensures Inv(cfg, Apply(cfg, s, Crash(o))) && Apply(cfg, s, Crash(o)).log == s.log
  {
    if o in s.ops && !s.ops[o].pc.Done? {
      CrashedOpFits(cfg, s.log, s.ops[o]);
      ReplacedOpKeepsInv(cfg, s, o, s.ops[o].(pc := Crashed));
    }
  }

  /** Every state of every run satisfies the invariant. */
  lemma {:induction false} RunKeepsInv(cfg: Config, actions: seq<Action>)
    ensures Inv(cfg, Run(cfg, actions))
  {
    if actions != [] {
      RunKeepsInv(cfg, actions[..|actions| - 1]);
      ApplyKeepsInv(cfg, Run(cfg, actions[..|actions| - 1]), actions[|actions| - 1]);
    }
  }

  // ---------------------------------------------------------------- runs that go on

  function ApplyAll(cfg: Config, s: State, more: seq<Action>): State
    decreases |more|
  {
    if more == [] then s else ApplyAll(cfg, Apply(cfg, s, more[0]), more[1..])
  }

  lemma {:induction false} RunGoesOn(cfg: Config, first: seq<Action>, more: seq<Action>)
    ensures Run(cfg, first + more) == ApplyAll(cfg, Run(cfg, first), more)
    decreases |more|
  {
    if more == [] {
      assert first + more == first;
    } else {
      assert first + more == first + [more[0]] + more[1..];
      assert (first + [more[0]])[..|first|] == first;
      RunGoesOn(cfg, first + [more[0]], more[1..]);
    }
  }

  lemma {:induction false} ApplyAllSplits(cfg: Config, s: State, a: seq<Action>, b: seq<Action>)
    ensures ApplyAll(cfg, s, a + b) == ApplyAll(cfg, ApplyAll(cfg, s, a), b)
    decreases |a|
  {
    if a == [] {
      assert a + b == b;
    } else {
      assert (a + b)[0] == a[0] && (a + b)[1..] == a[1..] + b;
      ApplyAllSplits(cfg, Apply(cfg, s, a[0]), a[1..], b);
    }
  }
}
