/** What concurrent jobs write: in every run, the event a job creates says, field by
    field, what the job was asked for, under the id and at the time of its own steps. */
module Traces {
  import opened AnnotationReaders
  import opened Contents
  import opened Lookup
  import opened Model
  import opened Operations
  import opened Policy
  import opened Writers
  import opened WriterSteps
  import opened WriterTheorems

  /** A run with the client that acts and the choice the environment makes at each step. */
  ghost predicate Trace(digest: string -> string, states: seq<State>, actors: seq<nat>, choices: seq<Choice>) {
    && Run(digest, states)
    && |actors| == |choices| == |states| - 1
    && forall k :: 0 <= k < |actors| ==> StepOf(digest, states[k], actors[k], choices[k], states[k + 1])
  }

  /** Every run has a trace. */
  lemma {:induction false} RunHasTrace(digest: string -> string, states: seq<State>) returns (actors: seq<nat>, choices: seq<Choice>)
    requires Run(digest, states)
    ensures Trace(digest, states, actors, choices)
    decreases |states|
  {
    hide StepOf, Initial;
    if |states| == 1 {
      actors, choices := [], [];
    } else {
      var n := |states| - 1;
      var before := states[..n];
      assert forall k :: 0 <= k < n - 1 ==> Step(digest, before[k], before[k + 1]) by {
        assert forall k :: 0 <= k < n ==> before[k] == states[k];
      }
      actors, choices := RunHasTrace(digest, before);
      assert Step(digest, states[n - 1], states[n]);
      var i: nat, choice: Choice :| StepOf(digest, states[n - 1], i, choice, states[n]);
      forall k | 0 <= k < n ensures StepOf(digest, states[k], (actors + [i])[k], (choices + [choice])[k], states[k + 1]) {
        if k < n - 1 {
          assert before[k] == states[k] && before[k + 1] == states[k + 1];
        }
      }
      actors, choices := actors + [i], choices + [choice];
    }
  }

  /** The event says what the job asked for, at the given time. */
  ghost predicate Says(digest: string -> string, log: Log, job: Job, e: Event, now: int) {
    match job
    case CreateJob(request) => CreatedFrom(e, request, now) && ValidateCreateRequest(request, true) == Ok((e.eventType, e.tags))
    case ToggleJob(parent, pair, toggler) => TransitionBy(e, parent, pair, toggler, now)
    case CloseJob(eventId, closer, description) =>
      && FindById(log, eventId).Some? && Target(log, eventId).Some?
      && EndOf(e, digest, FindById(log, eventId).value, Target(log, eventId).value, closer, description, now)
  }

  /** A request on its way through the create path asks for what the job wants. */
  ghost predicate Asks(digest: string -> string, log: Log, job: Job, request: Request) {
    match job
    case CreateJob(asked) => request == asked
    case ToggleJob(_, _, _) => false
    case CloseJob(eventId, closer, description) =>
      && FindById(log, eventId).Some? && Target(log, eventId).Some?
      && Closes(request, digest, FindById(log, eventId).value, Target(log, eventId).value, closer, description)
  }

  /** The step that fixed the event's time: the create path's check, or the toggle's insert. */
  predicate Dates(pc: Pc) {
    pc.Checking? || pc.InsertingTransition?
  }

  /** The step that gave the event its id: the insert. */
  predicate Names(pc: Pc) {
    pc.Inserting? || pc.InsertingTransition?
  }

  /** Client i dated this event before state k. */
  ghost predicate Dated(digest: string -> string, states: seq<State>, actors: seq<nat>, choices: seq<Choice>, k: nat, i: nat, e: Event)
    requires k < |states| && |actors| == |choices| == |states| - 1 && i < |states[k].clients|
  {
    exists m :: 0 <= m < k && actors[m] == i && i < |states[m].clients| && Dates(states[m].clients[i].pc)
      && Says(digest, states[k].log, states[k].clients[i].job, e, choices[m].now)
  }

  /** Client i named this event before state k. */
  ghost predicate Named(states: seq<State>, actors: seq<nat>, choices: seq<Choice>, k: nat, i: nat, e: Event)
    requires k < |states| && |actors| == |choices| == |states| - 1
  {
    exists m :: 0 <= m < k && actors[m] == i && i < |states[m].clients| && Names(states[m].clients[i].pc) && e.id == choices[m].id
  }

  ghost predicate Traced(digest: string -> string, states: seq<State>, actors: seq<nat>, choices: seq<Choice>, k: nat, i: nat)
    requires k < |states| && |actors| == |choices| == |states| - 1 && i < |states[k].clients|
  {
    match states[k].clients[i].pc
    case LookingUp(request, _) => Asks(digest, states[k].log, states[k].clients[i].job, request)
    case Checking(request, _) => Asks(digest, states[k].log, states[k].clients[i].job, request)
    case Inserting(e) => Dated(digest, states, actors, choices, k, i, e)
    case AwaitingUnique(row) => Dated(digest, states, actors, choices, k, i, row.event) && Named(states, actors, choices, k, i, row.event)
    case AwaitingParent(row) => Dated(digest, states, actors, choices, k, i, row.event) && Named(states, actors, choices, k, i, row.event)
    case Committing(row) => Dated(digest, states, actors, choices, k, i, row.event) && Named(states, actors, choices, k, i, row.event)
    case Finished(outcome) =>
      outcome.Created? ==>
        Dated(digest, states, actors, choices, k, i, outcome.created) && Named(states, actors, choices, k, i, outcome.created)
    case _ => true
  }

  // ----- One statement of a job

  lemma SaysLater(digest: string -> string, log: Log, later: Log, job: Job, e: Event, now: int)
    requires log <= later && Says(digest, log, job, e, now)
    ensures Says(digest, later, job, e, now)
  {
    hide FindById, Target, EndOf, CreatedFrom, TransitionBy, ValidateCreateRequest;
    if job.CloseJob? {
      assert later == log + later[|log|..];
      TargetStable(log, later[|log|..], job.eventId);
    }
  }

  lemma AsksLater(digest: string -> string, log: Log, later: Log, job: Job, request: Request)
    requires log <= later && Asks(digest, log, job, request)
    ensures Asks(digest, later, job, request)
  {
    hide FindById, Target, Closes;
    if job.CloseJob? {
      assert later == log + later[|log|..];
      TargetStable(log, later[|log|..], job.eventId);
    }
  }

  /** The event the check builds says what the request asks, and so what the job does. */
  lemma CheckedSays(digest: string -> string, log: Log, job: Job, request: Request, enforce: bool, now: int)
    requires PcOk(digest, log, job, Checking(request, enforce)) && Asks(digest, log, job, request)
    ensures var pc := AfterCheck(log, request, enforce, now); pc.Inserting? ==> Says(digest, log, job, pc.event, now)
  {
    hide ValidateCreateRequest, FindById, Target, Closes, EndOf;
    if job.CloseJob? && ValidateCreateRequest(request, enforce).Ok? {
      UnenforcedRequest(request);
      var e := BuildEvent(request, request.eventType, request.tags, now);
      EndFromRequest(e, request, digest, FindById(log, job.eventId).value, Target(log, job.eventId).value, job.closer, job.description, now);
    }
  }

  /** The request of a close asks for the end of the start it has read. */
  lemma StateAsks(digest: string -> string, log: Log, job: Job, start: Event)
    requires PcOk(digest, log, job, ReadingState(start))
    ensures var pc := AfterState(digest, log, job, start); pc.LookingUp? ==> Asks(digest, log, job, pc.request)
  {
    hide Open, Closes, CloseRequest, FindById;
    var op := Target(log, job.eventId).value;
    CloseRequestContents(digest, start, op, job.closer, job.description);
  }

  lemma NameChangesNothing(digest: string -> string, log: Log, job: Job, e: Event, id: string, now: int)
    requires Says(digest, log, job, e, now)
    ensures Says(digest, log, job, e.(id := id), now)
  {
    hide ValidateCreateRequest, FindById, Target;
  }

  // ----- Whole traces

  lemma DatedLater(digest: string -> string, states: seq<State>, actors: seq<nat>, choices: seq<Choice>, k: nat, i: nat, e: Event)
    requires k + 1 < |states| && |actors| == |choices| == |states| - 1
    requires i < |states[k].clients| && i < |states[k + 1].clients| && states[k + 1].clients[i].job == states[k].clients[i].job
    requires states[k].log <= states[k + 1].log
    requires Dated(digest, states, actors, choices, k, i, e)
    ensures Dated(digest, states, actors, choices, k + 1, i, e)
  {
    hide Says;
    var m :| 0 <= m < k && actors[m] == i && i < |states[m].clients| && Dates(states[m].clients[i].pc)
      && Says(digest, states[k].log, states[k].clients[i].job, e, choices[m].now);
    SaysLater(digest, states[k].log, states[k + 1].log, states[k].clients[i].job, e, choices[m].now);
  }

  lemma NamedLater(states: seq<State>, actors: seq<nat>, choices: seq<Choice>, k: nat, i: nat, e: Event)
    requires k + 1 < |states| && |actors| == |choices| == |states| - 1 && Named(states, actors, choices, k, i, e)
    ensures Named(states, actors, choices, k + 1, i, e)
  {
  }

  lemma DatedUnderName(digest: string -> string, states: seq<State>, actors: seq<nat>, choices: seq<Choice>, k: nat, i: nat, e: Event, id: string)
    requires k < |states| && |actors| == |choices| == |states| - 1 && i < |states[k].clients| && Dated(digest, states, actors, choices, k, i, e)
    ensures Dated(digest, states, actors, choices, k, i, e.(id := id))
  {
    hide Says;
    var m :| 0 <= m < k && actors[m] == i && i < |states[m].clients| && Dates(states[m].clients[i].pc)
      && Says(digest, states[k].log, states[k].clients[i].job, e, choices[m].now);
    NameChangesNothing(digest, states[k].log, states[k].clients[i].job, e, id, choices[m].now);
  }

  /** A client that does not act keeps what it was given. */
  lemma BystanderTraced(digest: string -> string, states: seq<State>, actors: seq<nat>, choices: seq<Choice>, k: nat, i: nat)
    requires k + 1 < |states| && |actors| == |choices| == |states| - 1
    requires i < |states[k].clients| && i < |states[k + 1].clients| && states[k + 1].clients[i] == states[k].clients[i]
    requires states[k].log <= states[k + 1].log
    requires Traced(digest, states, actors, choices, k, i)
    ensures Traced(digest, states, actors, choices, k + 1, i)
  {
    hide Asks, Dated, Named;
    match states[k].clients[i].pc
    case LookingUp(request, _) => AsksLater(digest, states[k].log, states[k + 1].log, states[k].clients[i].job, request);
    case Checking(request, _) => AsksLater(digest, states[k].log, states[k + 1].log, states[k].clients[i].job, request);
    case Inserting(e) => DatedLater(digest, states, actors, choices, k, i, e);
    case AwaitingUnique(row) => RowTracedLater(digest, states, actors, choices, k, i, row.event);
    case AwaitingParent(row) => RowTracedLater(digest, states, actors, choices, k, i, row.event);
    case Committing(row) => RowTracedLater(digest, states, actors, choices, k, i, row.event);
    case Finished(outcome) =>
      if outcome.Created? {
        RowTracedLater(digest, states, actors, choices, k, i, outcome.created);
      }
    case _ =>
  }

  lemma RowTracedLater(digest: string -> string, states: seq<State>, actors: seq<nat>, choices: seq<Choice>, k: nat, i: nat, e: Event)
    requires k + 1 < |states| && |actors| == |choices| == |states| - 1
    requires i < |states[k].clients| && i < |states[k + 1].clients| && states[k + 1].clients[i].job == states[k].clients[i].job
    requires states[k].log <= states[k + 1].log
    requires Dated(digest, states, actors, choices, k, i, e) && Named(states, actors, choices, k, i, e)
    ensures Dated(digest, states, actors, choices, k + 1, i, e) && Named(states, actors, choices, k + 1, i, e)
  {
    hide Dated, Named;
    DatedLater(digest, states, actors, choices, k, i, e);
    NamedLater(states, actors, choices, k, i, e);
  }

  /** A statement that ends its job without creating anything. */
  predicate EndsEmpty(pc: Pc) {
    pc.Finished? && !pc.outcome.Created?
  }

  /** Where a statement can lead. */
  ghost predicate LeadsTo(digest: string -> string, s: State, c: Client, choice: Choice, pc: Pc) {
    match c.pc
    case LookingUp(request, enforce) => pc == Checking(request, enforce)
    case Checking(request, enforce) => pc == AfterCheck(s.log, request, enforce, choice.now) && pc.Inserting?
    case Inserting(e) => pc == AwaitingUnique(Row(s.next, e.(id := choice.id)))
    case AwaitingUnique(row) => pc == AwaitingParent(row) || pc.FindingWinner?
    case AwaitingParent(row) => pc == Committing(row)
    case Committing(row) => pc == Finished(Created(row.event))
    case FindingWinner(_) => false
    case LockingParent => pc.ReadingLatest?
    case ReadingLatest => pc.InsertingTransition?
    case InsertingTransition(eventType) => c.job.ToggleJob? && pc == Committing(Row(s.next, TransitionEvent(c.job, eventType, choice.id, choice.now)))
    case ReadingStart => pc.ReadingState?
    case ReadingState(start) => c.job.CloseJob? && pc == AfterState(digest, s.log, c.job, start) && pc.LookingUp?
    case Finished(_) => false
  }

  lemma StatementLeads(digest: string -> string, s: State, i: nat, choice: Choice)
    requires i < |s.clients| && Act(digest, s, i, choice).Go?
    ensures EndsEmpty(Act(digest, s, i, choice).pc) || LeadsTo(digest, s, s.clients[i], choice, Act(digest, s, i, choice).pc)
  {
    hide ColumnsStorable, AttachmentsStorable, ValidateCreateRequest, FindById, FindByExternalId, LatestTransition, Open, Fresh,
      TransitionEvent, OthersHoldKey, OthersHoldUpdate, OthersHoldShare, BuildEvent, CloseRequest;
  }

  /** A statement of a job that carries on, and what was known before it. */
  ghost predicate Moves(digest: string -> string, states: seq<State>, actors: seq<nat>, choices: seq<Choice>, k: nat) {
    && |actors| == |choices| == |states| - 1 && k + 1 < |states|
    && actors[k] < |states[k].clients| && actors[k] < |states[k + 1].clients|
    && states[k + 1].clients[actors[k]].job == states[k].clients[actors[k]].job
    && states[k].log <= states[k + 1].log
    && JobAllowed(states[k].clients[actors[k]].job)
    && PcOk(digest, states[k].log, states[k].clients[actors[k]].job, states[k].clients[actors[k]].pc)
    && LeadsTo(digest, states[k], states[k].clients[actors[k]], choices[k], states[k + 1].clients[actors[k]].pc)
    && Traced(digest, states, actors, choices, k, actors[k])
  }

  lemma RequestMoves(digest: string -> string, states: seq<State>, actors: seq<nat>, choices: seq<Choice>, k: nat)
    requires Moves(digest, states, actors, choices, k)
    requires states[k].clients[actors[k]].pc.LookingUp? || states[k].clients[actors[k]].pc.ReadingState?
    ensures Traced(digest, states, actors, choices, k + 1, actors[k])
  {
    hide PcOk, Asks, AfterState, JobAllowed;
    var s, s', c := states[k], states[k + 1], states[k].clients[actors[k]];
    if c.pc.ReadingState? {
      StateAsks(digest, s.log, c.job, c.pc.start);
      AsksLater(digest, s.log, s'.log, c.job, s'.clients[actors[k]].pc.request);
    } else {
      AsksLater(digest, s.log, s'.log, c.job, c.pc.request);
    }
  }

  lemma CheckMoves(digest: string -> string, states: seq<State>, actors: seq<nat>, choices: seq<Choice>, k: nat)
    requires Moves(digest, states, actors, choices, k) && states[k].clients[actors[k]].pc.Checking?
    ensures Traced(digest, states, actors, choices, k + 1, actors[k])
  {
    hide PcOk, Asks, Says, Dated, AfterCheck, JobAllowed;
    var s, s', c := states[k], states[k + 1], states[k].clients[actors[k]];
    CheckedSays(digest, s.log, c.job, c.pc.request, c.pc.enforce, choices[k].now);
    var e := s'.clients[actors[k]].pc.event;
    SaysLater(digest, s.log, s'.log, c.job, e, choices[k].now);
    DatedNow(digest, states, actors, choices, k, e);
  }

  lemma InsertMoves(digest: string -> string, states: seq<State>, actors: seq<nat>, choices: seq<Choice>, k: nat)
    requires Moves(digest, states, actors, choices, k) && states[k].clients[actors[k]].pc.Inserting?
    ensures Traced(digest, states, actors, choices, k + 1, actors[k])
  {
    hide PcOk, Dated, Named, JobAllowed;
    var e := states[k].clients[actors[k]].pc.event;
    DatedLater(digest, states, actors, choices, k, actors[k], e);
    DatedUnderName(digest, states, actors, choices, k + 1, actors[k], e, choices[k].id);
    NamedNow(states, actors, choices, k, e.(id := choices[k].id));
  }

  lemma RowMoves(digest: string -> string, states: seq<State>, actors: seq<nat>, choices: seq<Choice>, k: nat)
    requires Moves(digest, states, actors, choices, k) && HasRow(states[k].clients[actors[k]].pc)
    ensures Traced(digest, states, actors, choices, k + 1, actors[k])
  {
    hide PcOk, Dated, Named, JobAllowed;
    RowTracedLater(digest, states, actors, choices, k, actors[k], states[k].clients[actors[k]].pc.row.event);
  }

  lemma ToggleMoves(digest: string -> string, states: seq<State>, actors: seq<nat>, choices: seq<Choice>, k: nat)
    requires Moves(digest, states, actors, choices, k) && states[k].clients[actors[k]].pc.InsertingTransition?
    ensures Traced(digest, states, actors, choices, k + 1, actors[k])
  {
    hide PcOk, Says, Dated, Named, JobAllowed, TransitionEvent;
    var s, s', c := states[k], states[k + 1], states[k].clients[actors[k]];
    var e := s'.clients[actors[k]].pc.row.event;
    ToggleSays(digest, s.log, s'.log, c.job, c.pc.eventType, choices[k].id, choices[k].now);
    DatedNow(digest, states, actors, choices, k, e);
    NamedNow(states, actors, choices, k, e);
  }

  lemma OtherMoves(digest: string -> string, states: seq<State>, actors: seq<nat>, choices: seq<Choice>, k: nat)
    requires Moves(digest, states, actors, choices, k)
    requires var pc := states[k].clients[actors[k]].pc; pc.FindingWinner? || pc.LockingParent? || pc.ReadingLatest? || pc.ReadingStart? || pc.Finished?
    ensures Traced(digest, states, actors, choices, k + 1, actors[k])
  {
    hide PcOk, JobAllowed;
  }

  lemma StatementMoves(digest: string -> string, states: seq<State>, actors: seq<nat>, choices: seq<Choice>, k: nat)
    requires |actors| == |choices| == |states| - 1 && k + 1 < |states|
    requires StepOf(digest, states[k], actors[k], choices[k], states[k + 1])
    requires Inv(digest, states[k]) && states[k].log <= states[k + 1].log
    requires Traced(digest, states, actors, choices, k, actors[k])
    ensures actors[k] < |states[k].clients| && actors[k] < |states[k + 1].clients|
    ensures EndsEmpty(states[k + 1].clients[actors[k]].pc) || Moves(digest, states, actors, choices, k)
  {
    hide Inv, Act, JobAllowed, PcOk, LeadsTo, Traced, LogOk, KeysExclusive, LocksExclusive;
    OneClientMoves(digest, states[k], actors[k], choices[k], states[k + 1]);
    ActorFacts(digest, states[k], actors[k]);
    StatementLeads(digest, states[k], actors[k], choices[k]);
  }

  lemma EmptyIsTraced(digest: string -> string, states: seq<State>, actors: seq<nat>, choices: seq<Choice>, k: nat, i: nat)
    requires k < |states| && |actors| == |choices| == |states| - 1 && i < |states[k].clients| && EndsEmpty(states[k].clients[i].pc)
    ensures Traced(digest, states, actors, choices, k, i)
  {
  }

  /** What the acting client's statement makes of the event it carries. */
  lemma ActorTraced(digest: string -> string, states: seq<State>, actors: seq<nat>, choices: seq<Choice>, k: nat)
    requires |actors| == |choices| == |states| - 1 && k + 1 < |states|
    requires StepOf(digest, states[k], actors[k], choices[k], states[k + 1])
    requires Inv(digest, states[k]) && states[k].log <= states[k + 1].log
    requires Traced(digest, states, actors, choices, k, actors[k])
    requires actors[k] < |states[k + 1].clients|
    ensures Traced(digest, states, actors, choices, k + 1, actors[k])
  {
    hide Inv, StepOf, Moves, Traced, EndsEmpty;
    StatementMoves(digest, states, actors, choices, k);
    if EndsEmpty(states[k + 1].clients[actors[k]].pc) {
      EmptyIsTraced(digest, states, actors, choices, k + 1, actors[k]);
      return;
    }
    var pc := states[k].clients[actors[k]].pc;
    if pc.LookingUp? || pc.ReadingState? {
      RequestMoves(digest, states, actors, choices, k);
    } else if pc.Checking? {
      CheckMoves(digest, states, actors, choices, k);
    } else if pc.Inserting? {
      InsertMoves(digest, states, actors, choices, k);
    } else if HasRow(pc) {
      RowMoves(digest, states, actors, choices, k);
    } else if pc.InsertingTransition? {
      ToggleMoves(digest, states, actors, choices, k);
    } else {
      OtherMoves(digest, states, actors, choices, k);
    }
  }

  lemma DatedNow(digest: string -> string, states: seq<State>, actors: seq<nat>, choices: seq<Choice>, k: nat, e: Event)
    requires k + 1 < |states| && |actors| == |choices| == |states| - 1
    requires actors[k] < |states[k].clients| && actors[k] < |states[k + 1].clients| && Dates(states[k].clients[actors[k]].pc)
    requires Says(digest, states[k + 1].log, states[k + 1].clients[actors[k]].job, e, choices[k].now)
    ensures Dated(digest, states, actors, choices, k + 1, actors[k], e)
  {
    hide Says;
  }

  lemma NamedNow(states: seq<State>, actors: seq<nat>, choices: seq<Choice>, k: nat, e: Event)
    requires k + 1 < |states| && |actors| == |choices| == |states| - 1
    requires actors[k] < |states[k].clients| && Names(states[k].clients[actors[k]].pc) && e.id == choices[k].id
    ensures Named(states, actors, choices, k + 1, actors[k], e)
  {
  }

  lemma ToggleSays(digest: string -> string, before: Log, log: Log, job: Job, eventType: string, id: string, now: int)
    requires job.ToggleJob? && JobAllowed(job) && PcOk(digest, before, job, InsertingTransition(eventType))
    ensures Says(digest, log, job, TransitionEvent(job, eventType, id, now), now)
    ensures TransitionEvent(job, eventType, id, now).id == id
  {
    TransitionContents(job, eventType, id, now);
  }

  lemma {:induction false} AlwaysTraced(digest: string -> string, states: seq<State>, actors: seq<nat>, choices: seq<Choice>, k: nat, i: nat)
    requires Trace(digest, states, actors, choices) && k < |states| && i < |states[k].clients|
    ensures Traced(digest, states, actors, choices, k, i)
    decreases k
  {
    hide Run, Inv, Traced, Act;
    RunInvariant(digest, states, 0, k);
    if k == 0 {
      StartsTraced(digest, states, actors, choices, i);
    } else {
      RunInvariant(digest, states, k - 1, k - 1);
      RunInvariant(digest, states, k - 1, k);
      assert StepOf(digest, states[k - 1], actors[k - 1], choices[k - 1], states[k]);
      OneClientMoves(digest, states[k - 1], actors[k - 1], choices[k - 1], states[k]);
      AlwaysTraced(digest, states, actors, choices, k - 1, i);
      if actors[k - 1] == i {
        ActorTraced(digest, states, actors, choices, k - 1);
      } else {
        BystanderTraced(digest, states, actors, choices, k - 1, i);
      }
    }
  }

  lemma StartsTraced(digest: string -> string, states: seq<State>, actors: seq<nat>, choices: seq<Choice>, i: nat)
    requires Run(digest, states) && |actors| == |choices| == |states| - 1 && i < |states[0].clients|
    ensures Traced(digest, states, actors, choices, 0, i)
  {
    hide LogOk, Step;
    assert states[0].clients[i] in states[0].clients;
  }

  /** In every run the event a job created says what the job asked for, at the time of
      the job's own dating step and under the id of its own insert. */
  lemma CreatedContents(digest: string -> string, states: seq<State>, actors: seq<nat>, choices: seq<Choice>, k: nat, i: nat)
    returns (dating: nat, naming: nat)
    requires Trace(digest, states, actors, choices) && k < |states| && i < |states[k].clients|
    requires states[k].clients[i].pc.Finished? && states[k].clients[i].pc.outcome.Created?
    ensures dating < k && actors[dating] == i && i < |states[dating].clients| && Dates(states[dating].clients[i].pc)
    ensures naming < k && actors[naming] == i && i < |states[naming].clients| && Names(states[naming].clients[i].pc)
    ensures var job, e, log, now := states[k].clients[i].job, states[k].clients[i].pc.outcome.created, states[k].log, choices[dating].now;
      && e in Events(log) && e.id == choices[naming].id
      && (job.CreateJob? ==>
            CreatedFrom(e, job.request, now) && ValidateCreateRequest(job.request, true) == Ok((e.eventType, e.tags)))
      && (job.ToggleJob? ==> TransitionBy(e, job.parent, job.pair, job.toggler, now))
      && (job.CloseJob? ==>
            && FindById(log, job.eventId).Some? && Target(log, job.eventId).Some?
            && EndOf(e, digest, FindById(log, job.eventId).value, Target(log, job.eventId).value, job.closer, job.description, now))
  {
    hide Run, Inv, Act, CreatedFrom, TransitionBy, EndOf, ValidateCreateRequest, FindById, Target, StepOf;
    AlwaysTraced(digest, states, actors, choices, k, i);
    RunInvariant(digest, states, k, k);
    ActorFacts(digest, states[k], i);
    var e := states[k].clients[i].pc.outcome.created;
    dating :| 0 <= dating < k && actors[dating] == i && i < |states[dating].clients| && Dates(states[dating].clients[i].pc)
      && Says(digest, states[k].log, states[k].clients[i].job, e, choices[dating].now);
    naming :| 0 <= naming < k && actors[naming] == i && i < |states[naming].clients| && Names(states[naming].clients[i].pc)
      && e.id == choices[naming].id;
  }
}
