/** The create path statement by statement and as one call: a create that runs
    alone and without faults does what the service's sequential meaning says. */
module Sequential {
  import opened Contents
  import opened Model
  import opened FaultFree
  import opened Lookup
  import opened Policy
  import opened Service = Registry
  import opened Writers

  /** The request passed the lookup, the validation and the parent check, and this is its event. */
  ghost predicate Prepared(log: Log, request: Request, event: Event, now: int) {
    && (request.externalId != "" ==> FindByExternalId(log, request.externalId).None?)
    && ValidateCreateRequest(request, true).Ok?
    && (request.parentId != "" ==> FindById(log, request.parentId).Some?)
    && event == BuildEvent(request, ValidateCreateRequest(request, true).value.0, ValidateCreateRequest(request, true).value.1, now)
  }

  /** The event row was inserted under this id and sequence number. */
  ghost predicate Written(log: Log, next: nat, request: Request, row: Row, event: Event, now: int) {
    Prepared(log, request, event, now) && ColumnsStorable(event) && row == Row(next, event.(id := row.event.id))
  }

  ghost predicate SubmitsTo(log: Log, next: nat, request: Request, s: State, outcome: Outcome, id: string, now: int) {
    var (submitted, row) := Submit(log, next, request, true, id, now);
    outcome == submitted && s.log == Appended(log, row)
  }

  /** How far the single create of a state has come since log and next. */
  ghost predicate Underway(log: Log, next: nat, request: Request, s: State) {
    && |s.clients| == 1
    && match s.clients[0].pc
       case LookingUp(r, enforce) => r == request && enforce && s.log == log && s.next == next
       case Checking(r, enforce) =>
         && r == request && enforce && s.log == log && s.next == next
         && (request.externalId != "" ==> FindByExternalId(log, request.externalId).None?)
       case Inserting(event) => s.log == log && s.next == next && exists now :: Prepared(log, request, event, now)
       case AwaitingUnique(row) => s.log == log && exists event, now :: Written(log, next, request, row, event, now)
       case AwaitingParent(row) => s.log == log && exists event, now :: Written(log, next, request, row, event, now)
       case Committing(row) => s.log == log && exists event, now :: Written(log, next, request, row, event, now)
       case Finished(outcome) => exists id, now :: SubmitsTo(log, next, request, s, outcome, id, now)
       case _ => false
  }

  lemma LookupStep(log: Log, next: nat, request: Request, s: State)
    requires s.log == log && request.externalId != "" && FindByExternalId(log, request.externalId).Some?
    ensures SubmitsTo(log, next, request, s, Duplicate(FindByExternalId(log, request.externalId)), "", 0)
  {
  }

  lemma CheckStep(log: Log, next: nat, request: Request, s: State, now: int)
    requires s.log == log && (request.externalId != "" ==> FindByExternalId(log, request.externalId).None?)
    ensures var pc := AfterCheck(log, request, true, now);
      if pc.Finished? then SubmitsTo(log, next, request, s, pc.outcome, "", now) else pc.Inserting? && Prepared(log, request, pc.event, now)
  {
    hide ValidateCreateRequest, FindById, FindByExternalId;
  }

  lemma WriteStep(log: Log, next: nat, request: Request, s: State, event: Event, id: string, now: int)
    requires Prepared(log, request, event, now) && s.log == log
    ensures !ColumnsStorable(event) ==> SubmitsTo(log, next, request, s, DatabaseError, id, now)
    ensures ColumnsStorable(event) ==> Written(log, next, request, Row(next, event.(id := id)), event, now)
  {
    hide ValidateCreateRequest, FindById, FindByExternalId, AttachmentsStorable;
  }

  lemma CommitStep(log: Log, next: nat, request: Request, s: State, row: Row, event: Event, now: int)
    requires Written(log, next, request, row, event, now)
    ensures AttachmentsStorable(row.event) && s.log == log + [row] ==> SubmitsTo(log, next, request, s, Created(row.event), row.event.id, now)
    ensures !AttachmentsStorable(row.event) && s.log == log ==> SubmitsTo(log, next, request, s, DatabaseError, row.event.id, now)
  {
    hide ValidateCreateRequest, FindById, FindByExternalId;
    SameStorability(event, row.event.id);
  }

  lemma SameStorability(event: Event, id: string)
    ensures ColumnsStorable(event.(id := id)) <==> ColumnsStorable(event)
    ensures AttachmentsStorable(event.(id := id)) <==> AttachmentsStorable(event)
  {
  }

  lemma StaysUnderway(digest: string -> string, log: Log, next: nat, request: Request, s: State, i: nat, choice: Choice, s': State)
    requires Underway(log, next, request, s) && !choice.fail && StepOf(digest, s, i, choice, s')
    ensures Underway(log, next, request, s')
  {
    hide ValidateCreateRequest, FindById, FindByExternalId, AttachmentsStorable, ColumnsStorable, SubmitsTo, Prepared, AfterCheck, Fresh;
    match s.clients[0].pc
    case LookingUp(_, _) =>
      if request.externalId != "" && FindByExternalId(log, request.externalId).Some? {
        LookupStep(log, next, request, s');
      }
    case Checking(_, _) =>
      CheckStep(log, next, request, s', choice.now);
    case Inserting(event) =>
      var now :| Prepared(log, request, event, now);
      WriteStep(log, next, request, s', event, choice.id, now);
    case AwaitingUnique(row) =>
      var event, now :| Written(log, next, request, row, event, now);
      PreparedFacts(log, request, event, now);
    case AwaitingParent(row) =>
      var event, now :| Written(log, next, request, row, event, now);
      PreparedFacts(log, request, event, now);
    case Committing(row) =>
      var event, now :| Written(log, next, request, row, event, now);
      CommitStep(log, next, request, s', row, event, now);
    case _ =>
  }

  lemma PreparedFacts(log: Log, request: Request, event: Event, now: int)
    requires Prepared(log, request, event, now)
    ensures event.externalId == request.externalId && event.parentId == request.parentId
    ensures event.externalId != "" ==> FindByExternalId(log, event.externalId).None?
    ensures event.parentId != "" ==> FindById(log, event.parentId).Some?
  {
  }

  lemma {:induction false} AlwaysUnderway(digest: string -> string, states: seq<State>, k: nat, request: Request)
    requires CalmRun(digest, states) && k < |states| && |states[0].clients| == 1 && states[0].clients[0].job == CreateJob(request)
    ensures Underway(states[0].log, states[0].next, request, states[k])
    decreases k
  {
    hide Underway, Act, LogOk;
    if k == 0 {
      assert states[0].clients[0] in states[0].clients;
      StartsUnderway(request, states[0]);
    } else {
      AlwaysUnderway(digest, states, k - 1, request);
      assert CalmStep(digest, states[k - 1], states[k]);
      var i: nat, choice: Choice :| !choice.fail && StepOf(digest, states[k - 1], i, choice, states[k]);
      StaysUnderway(digest, states[0].log, states[0].next, request, states[k - 1], i, choice, states[k]);
    }
  }

  lemma StartsUnderway(request: Request, s: State)
    requires |s.clients| == 1 && s.clients[0].job == CreateJob(request) && s.clients[0].pc == FirstPc(s.clients[0].job)
    ensures Underway(s.log, s.next, request, s)
  {
  }

  lemma SubmittedContents(log: Log, next: nat, request: Request, id: string, now: int)
    ensures var (outcome, row) := Submit(log, next, request, true, id, now);
      outcome.Created? ==>
        && row == Some(Row(next, outcome.created)) && outcome.created.id == id && CreatedFrom(outcome.created, request, now)
        && ValidateCreateRequest(request, true) == Ok((outcome.created.eventType, outcome.created.tags))
  {
    hide ValidateCreateRequest, Storable, FindById, FindByExternalId;
  }

  /** A create that runs alone and without faults ends with the outcome and the log
      of the sequential meaning, for the id and the time it was given. */
  lemma OneCreateSubmits(digest: string -> string, states: seq<State>, k: nat, request: Request) returns (id: string, now: int)
    requires CalmRun(digest, states) && k < |states| && |states[0].clients| == 1 && states[0].clients[0].job == CreateJob(request)
    ensures |states[k].clients| == 1
    ensures states[k].clients[0].pc.Finished? ==>
              var (outcome, row) := Submit(states[0].log, states[0].next, request, true, id, now);
              states[k].clients[0].pc.outcome == outcome && states[k].log == Appended(states[0].log, row)
    ensures states[k].clients[0].pc.Finished? && states[k].clients[0].pc.outcome.Created? ==>
              var e := states[k].clients[0].pc.outcome.created;
              && e.id == id && CreatedFrom(e, request, now)
              && ValidateCreateRequest(request, true) == Ok((e.eventType, e.tags))
              && states[k].log == states[0].log + [Row(states[0].next, e)]
  {
    hide CalmRun, Submit, CreatedFrom, ValidateCreateRequest;
    AlwaysUnderway(digest, states, k, request);
    id, now := "", 0;
    if states[k].clients[0].pc.Finished? {
      id, now :| SubmitsTo(states[0].log, states[0].next, request, states[k], states[k].clients[0].pc.outcome, id, now);
      SubmittedContents(states[0].log, states[0].next, request, id, now);
    }
  }
}
