/** Runs without database faults: a job whose texts PostgreSQL can store never
    ends in a database error, so creates, toggles and closes all succeed or say
    precisely why they did nothing. */
module FaultFree {
  import opened AnnotationReaders
  import opened Model
  import opened Lookup
  import opened Operations
  import opened Policy
  import opened Text
  import opened Where
  import opened Writers
  import opened WriterSteps
  import opened WriterTheorems

  predicate CleanRequest(r: Request) {
    && Clean(r.externalId) && CleanUser(r.user) && Clean(r.eventType) && Clean(r.description) && Clean(r.longDescription)
    && CleanTags(r.tags) && CleanLinks(r.links)
  }

  predicate CleanJob(job: Job) {
    match job
    case CreateJob(request) => CleanRequest(request)
    case ToggleJob(_, _, toggler) => CleanUser(toggler)
    case CloseJob(_, closer, description) => CleanUser(closer) && Clean(description)
  }

  /** Hexadecimal text. */
  ghost predicate CleanDigest(digest: string -> string) {
    forall text :: Clean(digest(text))
  }

  ghost predicate CalmStep(digest: string -> string, s: State, s': State) {
    exists i: nat, choice: Choice :: !choice.fail && StepOf(digest, s, i, choice, s')
  }

  ghost predicate CalmRun(digest: string -> string, states: seq<State>) {
    && Run(digest, states)
    && forall k :: 0 <= k < |states| - 1 ==> CalmStep(digest, states[k], states[k + 1])
  }

  /** Nothing the job holds is unstorable. */
  predicate CalmPc(pc: Pc) {
    match pc
    case LookingUp(request, _) => CleanRequest(request)
    case Checking(request, _) => CleanRequest(request)
    case Inserting(event) => Storable(event)
    case AwaitingUnique(row) => Storable(row.event)
    case AwaitingParent(row) => Storable(row.event)
    case Committing(row) => Storable(row.event)
    case Finished(outcome) => !outcome.DatabaseError?
    case _ => true
  }

  // ----- What the jobs write is storable

  lemma CanonicalIsClean(key: string, value: string)
    requires Clean(value)
    ensures Clean(CanonicalValue(key, value))
  {
    var trimmed := TrimSpace(value);
    forall i | 0 <= i < |trimmed| ensures ToLower(trimmed)[i] != NUL {
      assert trimmed[i] in trimmed;
    }
  }

  lemma BuiltIsStorable(request: Request, enforce: bool, now: int)
    requires CleanRequest(request) && ValidateCreateRequest(request, enforce).Ok?
    ensures var (eventType, tags) := ValidateCreateRequest(request, enforce).value;
      Storable(BuildEvent(request, eventType, tags, now))
  {
    hide CanonicalValue, ValidatePhaseTags, ValidateClassificationTags;
    forall key | key in request.tags ensures Clean(Normalized(request.tags)[key]) {
      CanonicalIsClean(key, request.tags[key]);
    }
    assert Clean(MAINTENANCE);
  }

  lemma CleanToggler(job: Job)
    requires job.ToggleJob? && JobAllowed(job) && CleanJob(job)
    ensures CleanUser(job.toggler) && (job.pair == STAR || job.pair == ALERT)
  {
  }

  lemma EndTagsAreClean(tags: Tags, key: string, value: string)
    requires CleanTags(tags) && Clean(key) && Clean(value)
    ensures CleanTags(EndTags(tags, key, value))
  {
    assert Clean(PHASE) && Clean("end");
  }

  lemma CloseRequestIsClean(digest: string -> string, start: Event, op: Operation, user: UserIdentity, description: string)
    requires CleanDigest(digest) && Starts(start, op) && Storable(start) && CleanUser(user) && Clean(description)
    ensures CleanRequest(CloseRequest(digest, start, op, user, description))
  {
    hide EndTags, CleanTags;
    IdentityStarts(start, op);
    assert op.value == start.tags[op.key] && Clean(op.value) by {
      OperationValueIsTag(start, op);
    }
    assert Clean(CHANGE_ID) && Clean(DEPLOY_ID) && Clean(CLOSE_PREFIX) && Clean(" completed") && Clean("");
    EndTagsAreClean(start.tags, op.key, op.value);
  }

  lemma OperationValueIsTag(start: Event, op: Operation)
    requires Starts(start, op) && CleanTags(start.tags)
    ensures op.key in start.tags && op.value == start.tags[op.key] && Clean(op.value)
  {
  }

  // ----- One step

  lemma CalmCheck(log: Log, request: Request, enforce: bool, now: int)
    requires CleanRequest(request)
    ensures CalmPc(AfterCheck(log, request, enforce, now))
  {
    hide ValidateCreateRequest, CleanRequest, Storable;
    if ValidateCreateRequest(request, enforce).Ok? {
      BuiltIsStorable(request, enforce, now);
    }
  }

  lemma CalmState(digest: string -> string, log: Log, next: nat, job: Job, start: Event)
    requires LogOk(digest, log, next) && PcOk(digest, log, job, ReadingState(start)) && CleanJob(job) && CleanDigest(digest)
    ensures CalmPc(AfterState(digest, log, job, start))
  {
    hide WellFormed, CleanRequest, Open, CleanUser;
    var row :| row in log && row.event == start;
    assert RowOk(digest, start) && AttachmentsStorable(start);
    var op := Target(log, job.eventId).value;
    assert Starts(start, op);
    CloseRequestIsClean(digest, start, op, job.closer, job.description);
  }

  /** The foreign key check finds the parent of every row in flight. */
  lemma PendingParentIsStored(digest: string -> string, log: Log, job: Job, row: Row)
    requires RowPending(digest, log, job, row) && row.event.parentId != ""
    ensures FindById(log, row.event.parentId).Some?
  {
    hide Produces, RowOk;
    var parent :| parent in log && parent.event.id == row.event.parentId && parent.sequence < row.sequence;
  }

  lemma CalmActor(digest: string -> string, s: State, i: nat, choice: Choice)
    requires Inv(digest, s) && i < |s.clients| && !choice.fail && Act(digest, s, i, choice).Go?
    requires CleanDigest(digest) && CleanJob(s.clients[i].job) && CalmPc(s.clients[i].pc)
    ensures CalmPc(Act(digest, s, i, choice).pc)
  {
    hide Inv, LogOk, CleanRequest, CleanJob, JobAllowed, RowPending, Produces, ColumnsStorable, AttachmentsStorable, TransitionEvent,
      ValidateCreateRequest, FindById, FindByExternalId, LatestTransition, Active, Open, Fresh, CleanDigest, RequestOf, ExternalIdOf, Target,
      OutcomeOk, OthersHoldKey, OthersHoldUpdate, OthersHoldShare, Storable, ParentOk, RowOk;
    ActorFacts(digest, s, i);
    var c := s.clients[i];
    match c.pc
    case LookingUp(request, enforce) =>
    case Checking(request, enforce) => CalmCheck(s.log, request, enforce, choice.now);
    case Inserting(event) => SameTexts(event, choice.id);
    case Committing(row) => SameTexts(row.event, choice.id);
    case AwaitingParent(row) =>
      if row.event.parentId != "" {
        PendingParentIsStored(digest, s.log, c.job, row);
      }
    case InsertingTransition(eventType) =>
      CleanToggler(c.job);
      TransitionIsStorable(c.job, eventType, choice.id, choice.now);
      SameTexts(TransitionEvent(c.job, eventType, choice.id, choice.now), choice.id);
    case ReadingState(start) => CalmState(digest, s.log, s.next, c.job, start);
    case _ =>
  }

  lemma SameTexts(event: Event, id: string)
    requires Storable(event)
    ensures ColumnsStorable(event) && AttachmentsStorable(event)
    ensures Storable(event.(id := id))
  {
  }

  // ----- Whole runs

  lemma {:induction false} CalmInvariant(digest: string -> string, states: seq<State>, k: nat, i: nat)
    requires CalmRun(digest, states) && CleanDigest(digest) && k < |states| && i < |states[k].clients| == |states[0].clients|
    requires CleanJob(states[0].clients[i].job)
    ensures states[k].clients[i].job == states[0].clients[i].job
    ensures CalmPc(states[k].clients[i].pc)
    decreases k
  {
    hide Inv, Act, CalmPc, CleanJob, CleanDigest, JobAllowed, LogOk;
    RunInvariant(digest, states, 0, k);
    if k == 0 {
      CalmStart(digest, states[0], i);
    } else {
      RunInvariant(digest, states, 0, k - 1);
      CalmInvariant(digest, states, k - 1, i);
      assert CalmStep(digest, states[k - 1], states[k]);
      var actor: nat, choice: Choice :| !choice.fail && StepOf(digest, states[k - 1], actor, choice, states[k]);
      if actor == i {
        CalmActor(digest, states[k - 1], i, choice);
      }
    }
  }

  lemma CalmStart(digest: string -> string, s: State, i: nat)
    requires Initial(digest, s) && i < |s.clients| && CleanJob(s.clients[i].job)
    ensures CalmPc(s.clients[i].pc)
  {
    hide LogOk, CleanRequest;
    assert s.clients[i] in s.clients;
  }

  /** Without faults, every create that passes validation and whose parent is stored
      in some state before its parent check returns the one stored event with its
      external id. */
  lemma FaultFreeCreate(digest: string -> string, states: seq<State>, j: nat, k: nat, i: nat)
    requires CalmRun(digest, states) && CleanDigest(digest) && j <= k < |states| && i < |states[k].clients| == |states[j].clients|
    requires states[k].clients[i].job.CreateJob? && CleanJob(states[k].clients[i].job) && states[k].clients[i].pc.Finished?
    requires var request := states[k].clients[i].job.request;
      ValidateCreateRequest(request, true).Ok?
      && (request.parentId != "" ==> HasNotLooked(states[j].clients[i]) && FindById(states[j].log, request.parentId).Some?)
    ensures var request, e := states[k].clients[i].job.request, Returned(states[k].clients[i].pc.outcome);
      && e.Some? && e.value in Events(states[k].log) && e.value.externalId == request.externalId
      && (request.externalId != "" ==> OnlyEventWith(states[k].log, e.value, request.externalId))
  {
    hide Run, ValidateCreateRequest, FindById, CleanRequest, CleanDigest, OnlyEventWith, HasNotLooked;
    RunInvariant(digest, states, 0, k);
    CalmInvariant(digest, states, k, i);
    CreateResult(digest, states, k, i);
  }

  /** Without faults, every close by a named user of a start that is stored in some
      state before the close reads it returns the operation's one closing event or
      reports the operation closed; either way it has ended. */
  lemma FaultFreeClose(digest: string -> string, states: seq<State>, j: nat, k: nat, i: nat)
    requires Injective(digest) && CalmRun(digest, states) && CleanDigest(digest)
    requires j <= k < |states| && i < |states[k].clients| == |states[j].clients|
    requires states[k].clients[i].job.CloseJob? && states[k].clients[i].job.closer.name != ""
    requires CleanJob(states[k].clients[i].job) && states[k].clients[i].pc.Finished?
    requires HasNotLooked(states[j].clients[i]) && Target(states[j].log, states[k].clients[i].job.eventId).Some?
    ensures var op, outcome := Target(states[j].log, states[k].clients[i].job.eventId).value, states[k].clients[i].pc.outcome;
      && Ended(Events(states[k].log), op)
      && (Returned(outcome).Some? || outcome.OperationClosed?)
      && (Returned(outcome).Some? ==> OnlyEventWith(states[k].log, Returned(outcome).value, CloseId(digest, op)) && Ends(Returned(outcome).value, op))
  {
    hide Run, Inv, Ended, CleanDigest, CleanJob, OnlyEventWith, Ends, Injective, Target, Events, CloseId, HasNotLooked, FindById;
    RunInvariant(digest, states, j, k);
    CalmInvariant(digest, states, k, i);
    CloseResult(digest, states, k, i);
    TargetIsStored(states[j].log, states[k].clients[i].job.eventId);
    var more := states[k].log[|states[j].log|..];
    assert states[k].log == states[j].log + more;
    TargetStable(states[j].log, more, states[k].clients[i].job.eventId);
  }

  lemma TargetIsStored(log: Log, eventId: string)
    requires Target(log, eventId).Some?
    ensures FindById(log, eventId).Some?
  {
  }

  /** Without faults, every toggle of an event that is stored in some state before
      the toggle locks it appends its transition. */
  lemma FaultFreeToggle(digest: string -> string, states: seq<State>, j: nat, k: nat, i: nat)
    requires CalmRun(digest, states) && CleanDigest(digest) && j <= k < |states| && i < |states[k].clients| == |states[j].clients|
    requires states[k].clients[i].job.ToggleJob? && CleanJob(states[k].clients[i].job) && states[k].clients[i].pc.Finished?
    requires HasNotLooked(states[j].clients[i]) && FindById(states[j].log, states[k].clients[i].job.parent).Some?
    ensures var job, outcome := states[k].clients[i].job, states[k].clients[i].pc.outcome;
      outcome.Created? && outcome.created in Events(states[k].log) && Transition(outcome.created, job.parent, job.pair)
  {
    hide Run, CleanDigest, FindById, LogOk, HasNotLooked;
    RunInvariant(digest, states, j, k);
    CalmInvariant(digest, states, k, i);
    MissingThroughout(digest, states, j, k, i);
    assert states[k].clients[i] in states[k].clients;
  }

  /** A fault-free run that cannot be continued without a fault has finished every job. */
  lemma StoppedRunsAreFinished(digest: string -> string, states: seq<State>, last: State, i: nat)
    requires CalmRun(digest, states) && last == states[|states| - 1] && i < |last.clients|
    requires forall actor: nat, choice: Choice :: !Enabled(digest, last, actor, choice)
    ensures last.clients[i].pc.Finished?
  {
    hide Inv, Act, Enabled;
    RunInvariant(digest, states, 0, |states| - 1);
    if !last.clients[i].pc.Finished? {
      var actor, choice := NeverStuck(digest, last, i);
    }
  }
}
