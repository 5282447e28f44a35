/**
 One recovery command through its journal: run after run, with a crash possible between any two durable
 actions, and with the effect possibly applied although its caller saw a failure.
 */
module RecoveryCommand {
  import opened Prelude
  import opened Journal

  /** A request, with the journal key its identity, action and authorization hash to. */
  datatype Request = Request(key: string, inspects: bool)

  datatype Place =
    | Outside
    | Validating(request: Request)
    | Applying(request: Request)
    | Confirming(request: Request, outcome: string)
    | Failing(request: Request, reason: string)

  /** An application of the effect, or a normal return, with its result document. */
  datatype Fact = Fact(key: string, outcome: string)

  datatype World = World(entries: seq<Entry>, place: Place, applied: seq<Fact>, returned: seq<Fact>)

  datatype Step =
    | Call(request: Request)
    | Refuse
    | Observe
    | Record
    | Apply(outcome: string)
    | ApplyButRaise(outcome: string, reason: string)
    | RaiseUnapplied(reason: string)
    | ApplyAndCrash(outcome: string)
    | Confirm
    | MarkUnknown
    | Crash
    | OtherWrite(write: Write)

  const NOTHING_YET := World([], Outside, [], [])

  function Intention(key: string): NewEntry {
    NewEntry(key, Action, "recovery_command", "", Some(Intended))
  }

  /** The updates name a status and one more field; the third stays as it was. */
  function Confirmation(outcome: string): Update {
    Update(Set(Some(Confirmed)), Set(Some(outcome)), Leave)
  }

  function Doubt(reason: string): Update {
    Update(Set(Some(Unknown)), Leave, Set(Some(reason)))
  }

  /** Other effects share the journal but never write under a key of `commands`. */
  predicate Enabled(w: World, commands: set<string>, s: Step) {
    match s
    case Call(request) => w.place.Outside? && request.key in commands
    case Refuse => w.place.Validating?
    case Observe => w.place.Validating? && w.place.request.inspects
    case Record => w.place.Validating? && !w.place.request.inspects
    case Apply(_) => w.place.Applying?
    case ApplyButRaise(_, _) => w.place.Applying?
    case RaiseUnapplied(_) => w.place.Applying?
    case ApplyAndCrash(_) => w.place.Applying?
    case Confirm => w.place.Confirming?
    case MarkUnknown => w.place.Failing?
    case Crash => !w.place.Outside?
    case OtherWrite(write) => (match write case Put(e) => e.key case Resolve(key, _) => key) !in commands
  }

  /** A command on file is answered from its entry, or refused; only a new one goes on to validation. */
  function Answered(w: World, request: Request): World {
    match Lookup(w.entries, request.key)
    case None => w.(place := Validating(request))
    case Some(e) =>
      if e.status == Some(Confirmed) && e.result.Some?
      then w.(returned := w.returned + [Fact(request.key, e.result.value)])
      else w
  }

  function Logged(w: World, outcome: string): World
    requires w.place.Applying?
  {
    w.(applied := w.applied + [Fact(w.place.request.key, outcome)])
  }

  function Next(w: World, commands: set<string>, s: Step): World
    requires Enabled(w, commands, s)
  {
    match s
    case Call(request) => Answered(w, request)
    case Refuse => w.(place := Outside)
    case Observe => w.(place := Outside)
    case Record =>
      w.(entries := Upserted(w.entries, Intention(w.place.request.key)), place := Applying(w.place.request))
    case Apply(outcome) => Logged(w, outcome).(place := Confirming(w.place.request, outcome))
    case ApplyButRaise(outcome, reason) => Logged(w, outcome).(place := Failing(w.place.request, reason))
    case RaiseUnapplied(reason) => w.(place := Failing(w.place.request, reason))
    case ApplyAndCrash(outcome) => Logged(w, outcome).(place := Outside)
    case Confirm =>
      w.(entries := Resolved(w.entries, w.place.request.key, Confirmation(w.place.outcome)),
         returned := w.returned + [Fact(w.place.request.key, w.place.outcome)], place := Outside)
    case MarkUnknown =>
      w.(entries := Resolved(w.entries, w.place.request.key, Doubt(w.place.reason)),
         place := Outside)
    case Crash => w.(place := Outside)
    case OtherWrite(write) =>
      w.(entries := match write case Put(e) => Upserted(w.entries, e) case Resolve(k, u) => Resolved(w.entries, k, u))
  }

  function After(commands: set<string>, steps: seq<Step>): World {
    if steps == [] then NOTHING_YET
    else
      var w := After(commands, steps[..|steps| - 1]);
      var s := steps[|steps| - 1];
      if Enabled(w, commands, s) then Next(w, commands, s) else w
  }

  // ---- the invariant, key by key

  function Applications(facts: seq<Fact>, key: string): seq<Fact> {
    if facts == [] then []
    else
      var rest := Applications(facts[..|facts| - 1], key);
      if facts[|facts| - 1].key == key then rest + [facts[|facts| - 1]] else rest
  }

  lemma ApplicationsOneMore(facts: seq<Fact>, f: Fact, key: string)
    ensures Applications(facts + [f], key)
         == Applications(facts, key) + if f.key == key then [f] else []
  {
    assert (facts + [f])[..|facts + [f]| - 1] == facts;
  }

  predicate At(w: World, key: string) {
    !w.place.Outside? && w.place.request.key == key
  }

  /** A place inside one command fixes what its journal entry says and how often its effect was applied. */
  predicate PlaceSound(w: World, key: string) {
    At(w, key) ==>
      var e := Lookup(w.entries, key);
      var applied := Applications(w.applied, key);
      match w.place
      case Validating(_) => e.None?
      case Applying(_) => e == Some(Fresh(Intention(key))) && applied == []
      case Confirming(_, outcome) => e == Some(Fresh(Intention(key))) && applied == [Fact(key, outcome)]
      case Failing(_, _) => e == Some(Fresh(Intention(key)))
  }

  predicate KeySound(w: World, key: string) {
    var e := Lookup(w.entries, key);
    var applied := Applications(w.applied, key);
    && |applied| <= 1
    && (e.None? ==> applied == [])
    && (e.Some? && e.value.status == Some(Confirmed) ==>
          e.value.result.Some? && applied == [Fact(key, e.value.result.value)])
    && (e.Some? && e.value.result.Some? ==> e.value.status == Some(Confirmed))
    && PlaceSound(w, key)
    && (forall f :: f in w.returned && f.key == key ==> applied == [f] && e.Some? && e.value.status == Some(Confirmed))
  }

  lemma StepKeepsKeySound(w: World, commands: set<string>, s: Step, key: string)
    requires Enabled(w, commands, s) && key in commands && KeySound(w, key)
    requires w.place.Outside? || w.place.request.key in commands
    ensures KeySound(Next(w, commands, s), key)
  {
    if s.Record? || s.Confirm? || s.MarkUnknown? {
      WriteKeepsKeySound(w, commands, s, key);
    } else if s.Apply? || s.ApplyButRaise? || s.ApplyAndCrash? {
      EffectKeepsKeySound(w, commands, s, key);
    } else if s.OtherWrite? {
      OtherKeepsKeySound(w, commands, s, key);
    }
  }

  lemma EffectKeepsKeySound(w: World, commands: set<string>, s: Step, key: string)
    requires Enabled(w, commands, s) && key in commands && KeySound(w, key)
    requires s.Apply? || s.ApplyButRaise? || s.ApplyAndCrash?
    ensures KeySound(Next(w, commands, s), key)
  {
    hide Applications, Lookup;
    ApplicationsOneMore(w.applied, Fact(w.place.request.key, s.outcome), key);
  }

  lemma OtherKeepsKeySound(w: World, commands: set<string>, s: Step, key: string)
    requires Enabled(w, commands, s) && key in commands && KeySound(w, key) && s.OtherWrite?
    ensures KeySound(Next(w, commands, s), key)
  {
    hide Upserted, Resolved, Applications, Lookup;
    match s.write
    case Put(e) => UpsertIsLocal(w.entries, e, key);
    case Resolve(k, u) => ResolveIsLocal(w.entries, k, u, key);
  }

  /** The command's own writes to the journal. */
  lemma WriteKeepsKeySound(w: World, commands: set<string>, s: Step, key: string)
    requires Enabled(w, commands, s) && key in commands && KeySound(w, key)
    requires s.Record? || s.Confirm? || s.MarkUnknown?
    ensures KeySound(Next(w, commands, s), key)
  {
    hide Upserted, Resolved, Applications, Lookup;
    var here := w.place.request.key;
    match s
    case Record => UpsertIsLocal(w.entries, Intention(here), key);
    case Confirm => ResolveIsLocal(w.entries, here, Confirmation(w.place.outcome), key);
    case MarkUnknown => ResolveIsLocal(w.entries, here, Doubt(w.place.reason), key);
  }

  lemma {:induction false} RunsAreSound(commands: set<string>, steps: seq<Step>, key: string)
    requires key in commands
    ensures KeySound(After(commands, steps), key)
    ensures var place := After(commands, steps).place; place.Outside? || place.request.key in commands
  {
    if steps != [] {
      var w := After(commands, steps[..|steps| - 1]);
      var s := steps[|steps| - 1];
      RunsAreSound(commands, steps[..|steps| - 1], key);
      if Enabled(w, commands, s) { StepKeepsKeySound(w, commands, s, key); }
    }
  }

  // ---- what the journal says of a command

  /** A command's entry says how far it got: tried, confirmed with its result, or in doubt with the reason. */
  predicate EntrySays(w: World, key: string) {
    var found := Lookup(w.entries, key);
    && (found.Some? ==>
          var e := found.value;
          && e.kind.Action? && e.operation == "recovery_command"
          && e.status in {Some(Intended), Some(Unknown), Some(Confirmed)}
          && (e.result.Some? <==> e.status == Some(Confirmed)) && (e.error.Some? <==> e.status == Some(Unknown)))
    && (At(w, key) ==>
          if w.place.Validating? then found.None? else found.Some? && found.value.status == Some(Intended))
  }

  lemma StepKeepsEntrySays(w: World, commands: set<string>, s: Step, key: string)
    requires Enabled(w, commands, s) && key in commands && EntrySays(w, key)
    ensures EntrySays(Next(w, commands, s), key)
  {
    if s.Record? {
      UpsertIsLocal(w.entries, Intention(w.place.request.key), key);
    } else if s.Confirm? {
      ResolveIsLocal(w.entries, w.place.request.key, Confirmation(w.place.outcome), key);
    } else if s.MarkUnknown? {
      ResolveIsLocal(w.entries, w.place.request.key, Doubt(w.place.reason), key);
    } else if s.OtherWrite? {
      match s.write
      case Put(e) => UpsertIsLocal(w.entries, e, key);
      case Resolve(k, u) => ResolveIsLocal(w.entries, k, u, key);
    }
    hide Upserted, Resolved, Lookup;
  }

  /**
   Over every run with crashes, a command's entry is intended while the effect is tried and after a crash in it,
   confirmed with a result, or unknown with a reason; nothing else is ever on file.
   */
  lemma {:induction false} EntriesSay(commands: set<string>, steps: seq<Step>, key: string)
    requires key in commands
    ensures EntrySays(After(commands, steps), key)
  {
    if steps != [] {
      var w := After(commands, steps[..|steps| - 1]);
      var s := steps[|steps| - 1];
      EntriesSay(commands, steps[..|steps| - 1], key);
      if Enabled(w, commands, s) { StepKeepsEntrySays(w, commands, s, key); }
      hide Enabled, Next, EntrySays;
    }
  }

  // ---- the main results

  /** Over every run with crashes and retries, one command's effect is applied at most once. */
  lemma AppliedAtMostOnce(commands: set<string>, steps: seq<Step>, key: string)
    requires key in commands
    ensures |Applications(After(commands, steps).applied, key)| <= 1
  {
    RunsAreSound(commands, steps, key);
  }

  /** Every normal return yields the result of that one application. */
  lemma ReturnsTheOneApplication(commands: set<string>, steps: seq<Step>, f: Fact)
    requires f.key in commands && f in After(commands, steps).returned
    ensures Applications(After(commands, steps).applied, f.key) == [f]
  {
    RunsAreSound(commands, steps, f.key);
  }

  /**
   A retry is answered exactly when an earlier call was confirmed; with no entry it goes on to validation;
   and an entry left intended or unknown by a crash refuses every retry, so the effect is never guessed.
   */
  lemma RetryIsAnsweredIff(commands: set<string>, steps: seq<Step>, request: Request)
    requires request.key in commands && After(commands, steps).place.Outside?
    ensures var w := After(commands, steps);
            var e := Lookup(w.entries, request.key);
            var v := Answered(w, request);
            && (v.returned != w.returned <==> e.Some? && e.value.status == Some(Confirmed))
            && (v.place.Validating? <==> e.None?)
            && (Applications(w.applied, request.key) != [] ==> !v.place.Validating?)
  {
    RunsAreSound(commands, steps, request.key);
  }

  // ---- the command as the code runs it

  datatype Validation = Valid | Invalid
  datatype Effect = Succeeds(outcome: string) | Raises(reason: string)
  datatype Answer = Result(document: string) | Observation | Unresolved | NotAllowed | Failed(reason: string)

  /** The journal after one uninterrupted execution, and its answer. */
  function Executed(entries: seq<Entry>, request: Request, validation: Validation, effect: Effect): (seq<Entry>, Answer)
  {
    var recorded := Upserted(entries, Intention(request.key));
    match Lookup(entries, request.key)
    case Some(e) =>
      (entries, if e.status == Some(Confirmed) && e.result.Some? then Result(e.result.value) else Unresolved)
    case None =>
      if validation.Invalid? then (entries, NotAllowed)
      else if request.inspects then (entries, Observation)
      else match effect
        case Succeeds(outcome) => (Resolved(recorded, request.key, Confirmation(outcome)), Result(outcome))
        case Raises(reason) => (Resolved(recorded, request.key, Doubt(reason)), Failed(reason))
  }

  method Execute(journal: EffectJournal, request: Request, validation: Validation, effect: Effect)
    returns (answer: Answer)
    requires request.key != ""
    modifies journal
    ensures (journal.entries, answer) == Executed(old(journal.entries), request, validation, effect)
  {
    var existing := journal.EntryByKey(request.key);
    if existing.Some? {
      if existing.value.status == Some(Confirmed) && existing.value.result.Some? {
        return Result(existing.value.result.value);
      }
      return Unresolved;
    }
    if validation.Invalid? { return NotAllowed; }
    if request.inspects { return Observation; }
    journal.Upsert(Intention(request.key));
    match effect
    case Succeeds(outcome) =>
      var _ := journal.ResolveByKey(request.key, Confirmation(outcome));
      answer := Result(outcome);
    case Raises(reason) =>
      var _ := journal.ResolveByKey(request.key, Doubt(reason));
      answer := Failed(reason);
  }

  /** An effect that raises may have been applied nevertheless, with an outcome its caller never sees. */
  function ProtocolSteps(entries: seq<Entry>, request: Request, validation: Validation, effect: Effect,
                         hidden: Option<string>): seq<Step>
  {
    if Lookup(entries, request.key).Some? then [Call(request)]
    else if validation.Invalid? then [Call(request), Refuse]
    else if request.inspects then [Call(request), Observe]
    else match effect
      case Succeeds(outcome) => [Call(request), Record, Apply(outcome), Confirm]
      case Raises(reason) =>
        [Call(request), Record,
         if hidden.Some? then ApplyButRaise(hidden.value, reason) else RaiseUnapplied(reason), MarkUnknown]
  }

  /** What an execution applied, with or without its caller seeing the outcome. */
  function AppliedBy(entries: seq<Entry>, request: Request, validation: Validation, effect: Effect,
                     hidden: Option<string>): seq<Fact>
  {
    if Lookup(entries, request.key).Some? || validation.Invalid? || request.inspects then []
    else match effect
      case Succeeds(outcome) => [Fact(request.key, outcome)]
      case Raises(_) => if hidden.Some? then [Fact(request.key, hidden.value)] else []
  }

  function Taken(w: World, commands: set<string>, steps: seq<Step>): World
    decreases |steps|
  {
    if steps == [] then w
    else Taken(if Enabled(w, commands, steps[0]) then Next(w, commands, steps[0]) else w, commands, steps[1..])
  }

  lemma {:induction false} AfterMore(commands: set<string>, steps: seq<Step>, more: seq<Step>)
    ensures After(commands, steps + more) == Taken(After(commands, steps), commands, more)
    decreases |more|
  {
    if more == [] {
      assert steps + more == steps;
    } else {
      assert (steps + [more[0]])[..|steps|] == steps;
      assert steps + more == (steps + [more[0]]) + more[1..];
      AfterMore(commands, steps + [more[0]], more[1..]);
    }
  }

  /** A call on file, a refusal or an inspection touches neither the journal nor the effect. */
  lemma QuietExecution(w: World, commands: set<string>, request: Request, validation: Validation, effect: Effect,
                       hidden: Option<string>)
    requires w.place.Outside? && request.key in commands
    requires Lookup(w.entries, request.key).Some? || validation.Invalid? || request.inspects
    ensures var (entries, answer) := Executed(w.entries, request, validation, effect);
            var v := Taken(w, commands, ProtocolSteps(w.entries, request, validation, effect, hidden));
            && v.place.Outside? && v.entries == entries && v.applied == w.applied
            && v.returned == w.returned + if answer.Result? then [Fact(request.key, answer.document)] else []
  {
    var called := Next(w, commands, Call(request));
    TakeOne(w, commands, Call(request));
    if Lookup(w.entries, request.key).None? {
      var last := if validation.Invalid? then Refuse else Observe;
      TakeMore(w, commands, Call(request), [last]);
      TakeOne(called, commands, last);
      assert [Call(request)] + [last] == [Call(request), last];
    }
  }

  lemma TakeOne(w: World, commands: set<string>, s: Step)
    requires Enabled(w, commands, s)
    ensures Taken(w, commands, [s]) == Next(w, commands, s)
  {
  }

  lemma TakeMore(w: World, commands: set<string>, s: Step, rest: seq<Step>)
    requires Enabled(w, commands, s)
    ensures Taken(w, commands, [s] + rest) == Taken(Next(w, commands, s), commands, rest)
  {
    assert ([s] + rest)[1..] == rest;
  }

  /** The four steps of an execution that reaches the effect. */
  lemma EffectExecution(w: World, commands: set<string>, request: Request, effect: Effect, hidden: Option<string>)
    requires w.place.Outside? && request.key in commands && !request.inspects
    requires Lookup(w.entries, request.key).None?
    ensures var (entries, answer) := Executed(w.entries, request, Valid, effect);
            var v := Taken(w, commands, ProtocolSteps(w.entries, request, Valid, effect, hidden));
            && v.place.Outside? && v.entries == entries
            && v.applied == w.applied + AppliedBy(w.entries, request, Valid, effect, hidden)
            && v.returned == w.returned + if answer.Result? then [Fact(request.key, answer.document)] else []
  {
    var steps := ProtocolSteps(w.entries, request, Valid, effect, hidden);
    var called := Next(w, commands, Call(request));
    var recorded := Next(called, commands, Record);
    var tried := Next(recorded, commands, steps[2]);
    FourSteps(w, commands, steps, called, recorded, tried);
    hide Taken, Upserted, Resolved, Lookup;
  }

  lemma FourSteps(w: World, commands: set<string>, steps: seq<Step>, second: World, third: World, fourth: World)
    requires |steps| == 4
    requires Enabled(w, commands, steps[0]) && Next(w, commands, steps[0]) == second
    requires Enabled(second, commands, steps[1]) && Next(second, commands, steps[1]) == third
    requires Enabled(third, commands, steps[2]) && Next(third, commands, steps[2]) == fourth
    requires Enabled(fourth, commands, steps[3])
    ensures Taken(w, commands, steps) == Next(fourth, commands, steps[3])
  {
    hide Enabled, Next, Taken;
    TakeMore(w, commands, steps[0], steps[1..]);
    TakeMore(second, commands, steps[1], steps[2..]);
    TakeMore(third, commands, steps[2], steps[3..]);
    TakeOne(fourth, commands, steps[3]);
    assert steps == [steps[0]] + steps[1..] && steps[1..] == [steps[1]] + steps[2..];
    assert steps[2..] == [steps[2]] + steps[3..] && steps[3..] == [steps[3]];
  }

  /**
   Every uninterrupted execution, whichever branch it takes, is a sequence of protocol steps: the journal and
   the answer are those of the code, and the results above hold of any run continued by it.
   */
  lemma ExecutionIsARun(commands: set<string>, steps: seq<Step>, request: Request, validation: Validation,
                        effect: Effect, hidden: Option<string>)
    requires request.key in commands && After(commands, steps).place.Outside?
    ensures var w := After(commands, steps);
            var (entries, answer) := Executed(w.entries, request, validation, effect);
            var v := After(commands, steps + ProtocolSteps(w.entries, request, validation, effect, hidden));
            && v.place.Outside? && v.entries == entries
            && v.applied == w.applied + AppliedBy(w.entries, request, validation, effect, hidden)
            && v.returned == w.returned + if answer.Result? then [Fact(request.key, answer.document)] else []
  {
    var w := After(commands, steps);
    AfterMore(commands, steps, ProtocolSteps(w.entries, request, validation, effect, hidden));
    if Lookup(w.entries, request.key).Some? || validation.Invalid? || request.inspects {
      QuietExecution(w, commands, request, validation, effect, hidden);
    } else {
      EffectExecution(w, commands, request, effect, hidden);
    }
  }

  /** So an effect reported as failed leaves the command unresolved: no later execution applies or answers it. */
  lemma FailureIsNeverRetried(commands: set<string>, steps: seq<Step>, request: Request,
                              effect: Effect, hidden: Option<string>, later: Effect)
    requires request.key in commands && After(commands, steps).place.Outside? && !request.inspects
    requires Lookup(After(commands, steps).entries, request.key).None? && effect.Raises?
    ensures var w := After(commands, steps);
            var v := After(commands, steps + ProtocolSteps(w.entries, request, Valid, effect, hidden));
            Executed(v.entries, request, Valid, later) == (v.entries, Unresolved)
  {
    var w := After(commands, steps);
    ExecutionIsARun(commands, steps, request, Valid, effect, hidden);
    UpsertIsLocal(w.entries, Intention(request.key), request.key);
    ResolveIsLocal(Upserted(w.entries, Intention(request.key)), request.key, Doubt(effect.reason), request.key);
  }

  /** Which execution gives which answer: a command on file is never validated, inspected or applied again. */
  lemma AnswerIff(entries: seq<Entry>, request: Request, validation: Validation, effect: Effect)
    ensures var answer := Executed(entries, request, validation, effect).1;
            var e := Lookup(entries, request.key);
            var confirmed := e.Some? && e.value.status == Some(Confirmed) && e.value.result.Some?;
            var applies := e.None? && validation.Valid? && !request.inspects;
            && (answer.Result? <==> confirmed || (applies && effect.Succeeds?))
            && (answer.Result? ==> Some(answer.document) == if confirmed then e.value.result else Some(effect.outcome))
            && (answer.Unresolved? <==> e.Some? && !confirmed)
            && (answer.NotAllowed? <==> e.None? && validation.Invalid?)
            && (answer.Observation? <==> e.None? && validation.Valid? && request.inspects)
            && (answer.Failed? <==> applies && effect.Raises?)
            && (answer.Failed? ==> answer.reason == effect.reason)
  {
    hide Upserted, Resolved, Lookup;
  }

  /** What an execution leaves on file: a new entry exactly when the effect was tried, and what came of it. */
  lemma ExecutionFiles(entries: seq<Entry>, request: Request, validation: Validation, effect: Effect)
    ensures var after := Executed(entries, request, validation, effect).0;
            var e := Lookup(after, request.key);
            if Lookup(entries, request.key).None? && validation.Valid? && !request.inspects then
              && e.Some? && e.value.operation == "recovery_command" && e.value.kind.Action?
              && e.value.status == Some(if effect.Succeeds? then Confirmed else Unknown)
              && e.value.result == (if effect.Succeeds? then Some(effect.outcome) else None)
              && e.value.error == (if effect.Raises? then Some(effect.reason) else None)
            else after == entries
  {
    var recorded := Upserted(entries, Intention(request.key));
    UpsertKeepsTheOutcome(entries, Intention(request.key));
    ResolutionWrites(recorded, request.key, Confirmation(if effect.Succeeds? then effect.outcome else ""));
    ResolutionWrites(recorded, request.key, Doubt(if effect.Raises? then effect.reason else ""));
    hide Upserted, Resolved, Lookup;
  }

  /** Executing a command again returns the first answer, whatever validation and effect would say now. */
  lemma SecondExecutionAnswersTheFirst(entries: seq<Entry>, request: Request, first: Validation, effect: Effect,
                                       second: Validation, later: Effect)
    ensures var (after, answer) := Executed(entries, request, first, effect);
            answer.Result? ==> Executed(after, request, second, later) == (after, answer)
  {
    ExecutionFiles(entries, request, first, effect);
    hide Upserted, Resolved, Lookup;
  }
}
