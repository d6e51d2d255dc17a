/** Concurrent writers as a state machine: any number of creates, toggles and
    closes, interleaved statement by statement under READ COMMITTED. */
module Writers {
  import opened AnnotationReaders
  import opened Model
  import opened Operations
  import opened Lookup
  import opened Policy
  import opened Sql
  import opened Text
  import opened Where

  // ----- Jobs, program counters and outcomes

  datatype Job =
    | CreateJob(request: Request)
    | ToggleJob(parent: string, pair: Pair, toggler: UserIdentity)
    | CloseJob(eventId: string, closer: UserIdentity, description: string)

  datatype Outcome =
    | Created(created: Event)
    | Duplicate(existing: Option<Event>)
    | Rejected(error: RequestError)
    | ParentNotFound
    | EventNotFound
    | NotClosable
    | OperationClosed
    | DatabaseError

  /** The statement a client runs next. */
  datatype Pc =
    // create
    | LookingUp(request: Request, enforce: bool)     // SELECT by external_id
    | Checking(request: Request, enforce: bool)      // validate; SELECT the parent
    | Inserting(event: Event)                        // INSERT: allocate the ingest_sequence
    | AwaitingUnique(row: Row)                       //   wait on the external_id index
    | AwaitingParent(row: Row)                       //   foreign key check: KEY SHARE lock on the parent
    | Committing(row: Row)                           // insert the tags and links; COMMIT
    | FindingWinner(externalId: string)              // after a unique violation: SELECT the winner
    // toggle
    | LockingParent                                  // SELECT ... FOR UPDATE
    | ReadingLatest                                  // SELECT the latest transition
    | InsertingTransition(eventType: string)         // INSERT under the parent lock
    // close
    | ReadingStart                                   // SELECT the start
    | ReadingState(start: Event)                     // count its rows in Current
    | Finished(outcome: Outcome)

  datatype Client = Client(job: Job, pc: Pc)

  /** next is the next value of the identity sequence. */
  datatype State = State(log: Log, next: nat, clients: seq<Client>)

  /** What the environment decides for a step: a fresh event id, the clock, and
      whether the database fails and the transaction rolls back. */
  datatype Choice = Choice(id: string, now: int, fail: bool)

  datatype Effect = Blocked | Go(pc: Pc, commit: Option<Row>, allocate: bool)

  // ----- Locks held by open transactions

  predicate HasRow(pc: Pc) {
    pc.AwaitingUnique? || pc.AwaitingParent? || pc.Committing?
  }

  /** An uncommitted row in the external_id index. */
  predicate HoldsKey(c: Client, externalId: string) {
    externalId != "" && (c.pc.AwaitingParent? || c.pc.Committing?) && c.pc.row.event.externalId == externalId
  }

  /** FOR UPDATE on the parent row. */
  predicate HoldsUpdate(c: Client, parent: string) {
    c.job.ToggleJob? && c.job.parent == parent && (c.pc.ReadingLatest? || c.pc.InsertingTransition? || c.pc.Committing?)
  }

  /** KEY SHARE on the parent row, taken by the foreign key check. */
  predicate HoldsShare(c: Client, parent: string) {
    !c.job.ToggleJob? && parent != "" && c.pc.Committing? && c.pc.row.event.parentId == parent
  }

  predicate OthersHoldKey(s: State, i: nat, externalId: string) {
    exists j :: 0 <= j < |s.clients| && j != i && HoldsKey(s.clients[j], externalId)
  }

  predicate OthersHoldUpdate(s: State, i: nat, parent: string) {
    exists j :: 0 <= j < |s.clients| && j != i && HoldsUpdate(s.clients[j], parent)
  }

  predicate OthersHoldShare(s: State, i: nat, parent: string) {
    exists j :: 0 <= j < |s.clients| && j != i && HoldsShare(s.clients[j], parent)
  }

  // ----- The steps

  predicate Clean(text: string) {
    NUL !in text
  }

  predicate CleanUser(user: UserIdentity) {
    Clean(user.name) && Clean(user.provider) && Clean(user.subject)
  }

  predicate CleanTags(tags: Tags) {
    forall key :: key in tags ==> Clean(key) && Clean(tags[key])
  }

  predicate CleanLinks(links: seq<EventLink>) {
    forall link :: link in links ==> Clean(link.linkLabel) && Clean(link.url)
  }

  /** PostgreSQL text cannot hold a NUL byte: the INSERT of such an event row fails. */
  predicate ColumnsStorable(e: Event) {
    Clean(e.externalId) && CleanUser(e.user) && Clean(e.eventType) && Clean(e.description) && Clean(e.longDescription)
  }

  /** The tag and link rows are inserted after the event row, in the same transaction. */
  predicate AttachmentsStorable(e: Event) {
    CleanTags(e.tags) && CleanLinks(e.links)
  }

  predicate Storable(e: Event) {
    ColumnsStorable(e) && AttachmentsStorable(e)
  }

  /** The id is neither stored nor used by a row in flight. */
  predicate Fresh(s: State, id: string) {
    && id != ""
    && (forall row :: row in s.log ==> row.event.id != id)
    && (forall j :: 0 <= j < |s.clients| && HasRow(s.clients[j].pc) ==> s.clients[j].pc.row.event.id != id)
  }

  function BuildEvent(req: Request, eventType: string, tags: Tags, now: int): Event {
    Event("", req.externalId, req.parentId, req.user,
          CanonicalTime(if req.timestamp.Some? then req.timestamp.value else now),
          eventType, req.description, req.longDescription, req.links, tags, CanonicalTime(now))
  }

  function TransitionEvent(job: Job, eventType: string, id: string, now: int): Event
    requires job.ToggleJob?
  {
    Event(id, "", job.parent, job.toggler, CanonicalTime(now), eventType, TransitionText(eventType), "", [], map[], CanonicalTime(now))
  }

  function TransitionText(eventType: string): string {
    if eventType == STAR.active then "starred"
    else if eventType == STAR.inactive then "unstarred"
    else if eventType == ALERT.active then "alert opened"
    else "alert cleared"
  }

  /** The request CloseOperationAs builds from the start and its identity. */
  function CloseRequest(digest: string -> string, start: Event, op: Operation, user: UserIdentity, description: string): Request {
    var text := TrimSpace(description);
    Request("", CloseId(digest, op), user, None, start.eventType, if text == "" then start.description + " completed" else text,
            "", [], true, EndTags(start.tags, op.key, op.value))
  }

  function FirstPc(job: Job): Pc {
    match job
    case CreateJob(request) => LookingUp(request, true)
    case ToggleJob(_, _, _) => LockingParent
    case CloseJob(_, _, _) => ReadingStart
  }

  ghost function Act(digest: string -> string, s: State, i: nat, choice: Choice): Effect
    requires i < |s.clients|
  {
    var c := s.clients[i];
    if c.pc.Finished? then Blocked
    else if choice.fail then Go(Finished(DatabaseError), None, false)
    else match c.pc
      case LookingUp(request, enforce) => Go(AfterLookup(s.log, request, enforce), None, false)
      case Checking(request, enforce) => Go(AfterCheck(s.log, request, enforce, choice.now), None, false)
      case Inserting(event) =>
        if !Fresh(s, choice.id) then Blocked
        else if !ColumnsStorable(event) then Go(Finished(DatabaseError), None, true)
        else Go(AwaitingUnique(Row(s.next, event.(id := choice.id))), None, true)
      case AwaitingUnique(row) =>
        if OthersHoldKey(s, i, row.event.externalId) then Blocked
        else if row.event.externalId != "" && FindByExternalId(s.log, row.event.externalId).Some? then Go(FindingWinner(row.event.externalId), None, false)
        else Go(AwaitingParent(row), None, false)
      case AwaitingParent(row) =>
        if row.event.parentId == "" then Go(Committing(row), None, false)
        else if OthersHoldUpdate(s, i, row.event.parentId) then Blocked
        else if FindById(s.log, row.event.parentId).None? then Go(Finished(DatabaseError), None, false)
        else Go(Committing(row), None, false)
      case Committing(row) =>
        if !AttachmentsStorable(row.event) then Go(Finished(DatabaseError), None, false)
        else Go(Finished(Created(row.event)), Some(row), false)
      case FindingWinner(externalId) => Go(Finished(Duplicate(FindByExternalId(s.log, externalId))), None, false)
      case LockingParent =>
        if !c.job.ToggleJob? || FindById(s.log, c.job.parent).None? then Go(Finished(EventNotFound), None, false)
        else if OthersHoldUpdate(s, i, c.job.parent) || OthersHoldShare(s, i, c.job.parent) then Blocked
        else Go(ReadingLatest, None, false)
      case ReadingLatest =>
        if !c.job.ToggleJob? then Blocked
        else
          var latest := LatestTransition(s.log, c.job.parent, c.job.pair);
          Go(InsertingTransition(if latest == Some(c.job.pair.active) then c.job.pair.inactive else c.job.pair.active), None, false)
      case InsertingTransition(eventType) =>
        if !c.job.ToggleJob? || !Fresh(s, choice.id) then Blocked
        else
          var event := TransitionEvent(c.job, eventType, choice.id, choice.now);
          if !ColumnsStorable(event) then Go(Finished(DatabaseError), None, true) else Go(Committing(Row(s.next, event)), None, true)
      case ReadingStart =>
        if !c.job.CloseJob? then Blocked else Go(AfterStart(s.log, c.job), None, false)
      case ReadingState(start) =>
        if !c.job.CloseJob? then Blocked else Go(AfterState(digest, s.log, c.job, start), None, false)
  }

  function AfterLookup(log: Log, request: Request, enforce: bool): Pc {
    if request.externalId != "" && FindByExternalId(log, request.externalId).Some?
    then Finished(Duplicate(FindByExternalId(log, request.externalId)))
    else Checking(request, enforce)
  }

  function AfterCheck(log: Log, request: Request, enforce: bool, now: int): Pc {
    match ValidateCreateRequest(request, enforce)
    case Err(error) => Finished(Rejected(error))
    case Ok((eventType, tags)) =>
      if request.parentId != "" && FindById(log, request.parentId).None? then Finished(ParentNotFound)
      else Inserting(BuildEvent(request, eventType, tags, now))
  }

  function AfterStart(log: Log, job: Job): Pc
    requires job.CloseJob?
  {
    if job.closer.name == "" then Finished(Rejected(UserNameRequired))
    else
      var start := FindById(log, job.eventId);
      if start.None? then Finished(EventNotFound)
      else if OperationIdentity(start).None? then Finished(NotClosable)
      else ReadingState(start.value)
  }

  ghost function AfterState(digest: string -> string, log: Log, job: Job, start: Event): Pc
    requires job.CloseJob?
  {
    match OperationIdentity(Some(start))
    case None => Finished(NotClosable)
    case Some((key, value)) =>
      var op := Operation(start.eventType, key, value);
      if !Open(Events(log), op) then Finished(OperationClosed)
      else LookingUp(CloseRequest(digest, start, op, job.closer, job.description), false)
  }

  ghost function Apply(s: State, i: nat, effect: Effect): State
    requires i < |s.clients| && effect.Go?
  {
    State(if effect.commit.Some? then s.log + [effect.commit.value] else s.log,
          if effect.allocate then s.next + 1 else s.next,
          s.clients[i := s.clients[i].(pc := effect.pc)])
  }

  ghost predicate StepOf(digest: string -> string, s: State, i: nat, choice: Choice, s': State) {
    i < |s.clients| && Act(digest, s, i, choice).Go? && s' == Apply(s, i, Act(digest, s, i, choice))
  }

  ghost predicate Step(digest: string -> string, s: State, s': State) {
    exists i, choice :: StepOf(digest, s, i, choice, s')
  }

  // ----- Runs

  /** Callers do not use the prefix reserved for closing identifiers. */
  predicate JobAllowed(job: Job) {
    match job
    case CreateJob(request) => !IsCloseText(request.externalId)
    case ToggleJob(_, pair, _) => pair == STAR || pair == ALERT
    case CloseJob(_, _, _) => true
  }

  /** A closing identifier belongs to the end of the operation it was derived from. */
  ghost predicate HonestCloseId(digest: string -> string, e: Event) {
    IsCloseText(e.externalId) ==> exists op :: CleanOperation(op) && e.externalId == CloseId(digest, op) && Ends(e, op)
  }

  ghost predicate RowOk(digest: string -> string, e: Event) {
    && e.id != ""
    && e.eventType != ""
    && ColumnsStorable(e)
    && Canonical(e)
    && HonestCloseId(digest, e)
  }

  ghost predicate LogOk(digest: string -> string, log: Log, next: nat) {
    && WellFormed(log)
    && (forall row :: row in log ==> row.sequence < next && RowOk(digest, row.event) && AttachmentsStorable(row.event))
  }

  ghost predicate Initial(digest: string -> string, s: State) {
    && LogOk(digest, s.log, s.next)
    && forall c :: c in s.clients ==> JobAllowed(c.job) && c.pc == FirstPc(c.job)
  }

  ghost predicate Run(digest: string -> string, states: seq<State>) {
    && states != []
    && Initial(digest, states[0])
    && forall k :: 0 <= k < |states| - 1 ==> Step(digest, states[k], states[k + 1])
  }

  // ----- The invariant

  /** The parent of an event is stored with a smaller ingest sequence. */
  ghost predicate ParentOk(log: Log, parentId: string, sequence: nat) {
    parentId != "" ==> StoredBefore(log, parentId, sequence)
  }

  predicate Accepts(request: Request, e: Event) {
    && e.externalId == request.externalId
    && e.parentId == request.parentId
    && ValidateCreateRequest(request, true) == Ok((e.eventType, e.tags))
  }

  ghost predicate Closing(digest: string -> string, e: Event, op: Operation) {
    e.externalId == CloseId(digest, op) && Ends(e, op)
  }

  ghost predicate ClosingRequest(digest: string -> string, r: Request, op: Operation) {
    && r.parentId == "" && r.user.name != "" && r.linksValid
    && r.externalId == CloseId(digest, op)
    && r.eventType == op.eventType && r.eventType != ""
    && Tag(r.tags, PHASE) == "end"
    && Identifier(r.tags) == Some((op.key, op.value))
  }

  /** What a job may still insert. */
  ghost predicate Produces(digest: string -> string, log: Log, job: Job, e: Event) {
    match job
    case CreateJob(request) => Accepts(request, e)
    case ToggleJob(parent, pair, _) => Transition(e, parent, pair) && e.externalId == ""
    case CloseJob(eventId, _, _) => Target(log, eventId).Some? && Closing(digest, e, Target(log, eventId).value)
  }

  ghost predicate RequestOf(digest: string -> string, log: Log, job: Job, r: Request, enforce: bool) {
    match job
    case CreateJob(request) => r == request && enforce
    case ToggleJob(_, _, _) => false
    case CloseJob(eventId, _, _) => Target(log, eventId).Some? && ClosingRequest(digest, r, Target(log, eventId).value) && !enforce
  }

  ghost predicate ExternalIdOf(digest: string -> string, log: Log, job: Job, externalId: string) {
    match job
    case CreateJob(request) => externalId == request.externalId && externalId != ""
    case ToggleJob(_, _, _) => false
    case CloseJob(eventId, _, _) => Target(log, eventId).Some? && externalId == CloseId(digest, Target(log, eventId).value)
  }

  ghost predicate OutcomeOk(digest: string -> string, log: Log, job: Job, outcome: Outcome) {
    match outcome
    case Created(e) => e in Events(log) && Produces(digest, log, job, e)
    case Duplicate(existing) => existing.Some? && existing.value in Events(log) && ExternalIdOf(digest, log, job, existing.value.externalId)
    case Rejected(error) =>
      (match job
       case CreateJob(request) => ValidateCreateRequest(request, true) == Err(error)
       case ToggleJob(_, _, _) => false
       case CloseJob(_, closer, _) => closer.name == "")
    case ParentNotFound => job.CreateJob? && job.request.parentId != ""
    case EventNotFound => !job.CreateJob?
    case NotClosable => job.CloseJob? && FindById(log, job.eventId).Some? && Target(log, job.eventId).None?
    case OperationClosed => job.CloseJob? && Target(log, job.eventId).Some? && Ended(Events(log), Target(log, job.eventId).value)
    case DatabaseError => true
  }

  ghost predicate PcOk(digest: string -> string, log: Log, job: Job, pc: Pc) {
    match pc
    case LookingUp(request, enforce) => RequestOf(digest, log, job, request, enforce)
    case Checking(request, enforce) => RequestOf(digest, log, job, request, enforce)
    case Inserting(event) =>
      && !job.ToggleJob? && Produces(digest, log, job, event)
      && event.eventType != "" && Canonical(event)
      && (event.parentId != "" ==> FindById(log, event.parentId).Some?)
    case AwaitingUnique(row) => !job.ToggleJob? && RowPending(digest, log, job, row)
    case AwaitingParent(row) => !job.ToggleJob? && RowPending(digest, log, job, row)
    case Committing(row) => RowPending(digest, log, job, row)
    case FindingWinner(externalId) => ExternalIdOf(digest, log, job, externalId) && FindByExternalId(log, externalId).Some?
    case LockingParent => job.ToggleJob?
    case ReadingLatest => job.ToggleJob? && FindById(log, job.parent).Some?
    case InsertingTransition(eventType) =>
      job.ToggleJob? && FindById(log, job.parent).Some? && (eventType == job.pair.active || eventType == job.pair.inactive)
    case ReadingStart => job.CloseJob?
    case ReadingState(start) =>
      job.CloseJob? && job.closer.name != "" && FindById(log, job.eventId) == Some(start) && Target(log, job.eventId).Some?
    case Finished(outcome) => OutcomeOk(digest, log, job, outcome)
  }

  ghost predicate RowPending(digest: string -> string, log: Log, job: Job, row: Row) {
    && Produces(digest, log, job, row.event)
    && ParentOk(log, row.event.parentId, row.sequence)
    && RowOk(digest, row.event)
  }

  /** Rows in flight have sequence numbers and ids of their own. */
  ghost predicate PendingDistinct(s: State) {
    && (forall i, row :: 0 <= i < |s.clients| && HasRow(s.clients[i].pc) && row in s.log ==>
          row.sequence != s.clients[i].pc.row.sequence && row.event.id != s.clients[i].pc.row.event.id)
    && (forall i :: 0 <= i < |s.clients| && HasRow(s.clients[i].pc) ==> s.clients[i].pc.row.sequence < s.next)
    && (forall i, j :: 0 <= i < j < |s.clients| && HasRow(s.clients[i].pc) && HasRow(s.clients[j].pc) ==>
          s.clients[i].pc.row.sequence != s.clients[j].pc.row.sequence && s.clients[i].pc.row.event.id != s.clients[j].pc.row.event.id)
  }

  /** The external_id index admits one holder per key, and none for a committed key. */
  ghost predicate KeysExclusive(s: State) {
    && (forall i, x :: 0 <= i < |s.clients| && HoldsKey(s.clients[i], x) ==> FindByExternalId(s.log, x).None?)
    && (forall i, j, x :: 0 <= i < j < |s.clients| && HoldsKey(s.clients[i], x) ==> !HoldsKey(s.clients[j], x))
  }

  /** A FOR UPDATE lock excludes every other lock on the row. */
  ghost predicate LocksExclusive(s: State) {
    forall i, j, p :: 0 <= i < |s.clients| && 0 <= j < |s.clients| && i != j && HoldsUpdate(s.clients[i], p) ==>
      !HoldsUpdate(s.clients[j], p) && !HoldsShare(s.clients[j], p)
  }

  ghost predicate Inv(digest: string -> string, s: State) {
    && LogOk(digest, s.log, s.next)
    && (forall c :: c in s.clients ==> JobAllowed(c.job) && PcOk(digest, s.log, c.job, c.pc))
    && PendingDistinct(s)
    && KeysExclusive(s)
    && LocksExclusive(s)
  }

  // ----- Growth of the log keeps every per-client fact

  lemma TargetStable(log: Log, more: Log, eventId: string)
    requires FindById(log, eventId).Some?
    ensures FindById(log + more, eventId) == FindById(log, eventId)
    ensures Target(log + more, eventId) == Target(log, eventId)
  {
    FoundForever(log, more, eventId);
  }

  lemma EventsGrow(log: Log, more: Log)
    ensures Events(log) <= Events(log + more)
  {
    forall e | e in Events(log) ensures e in Events(log + more) {
      var row :| row in log && row.event == e;
      assert row in log + more;
    }
  }

  lemma StoredBeforeGrows(log: Log, more: Log, id: string, sequence: nat)
    requires StoredBefore(log, id, sequence)
    ensures StoredBefore(log + more, id, sequence)
  {
    var row :| row in log && row.event.id == id && row.sequence < sequence;
    assert row in log + more;
  }

  lemma PcOkGrows(digest: string -> string, log: Log, more: Log, job: Job, pc: Pc)
    requires PcOk(digest, log, job, pc)
    ensures PcOk(digest, log + more, job, pc)
  {
    hide RowOk, Closing, ClosingRequest, Accepts, Identifier;
    EventsGrow(log, more);
    if job.CloseJob? && FindById(log, job.eventId).Some? {
      TargetStable(log, more, job.eventId);
      if Target(log, job.eventId).Some? && Ended(Events(log), Target(log, job.eventId).value) {
        EndedForever(Events(log), Events(log + more), Target(log, job.eventId).value);
      }
    }
    if HasRow(pc) && pc.row.event.parentId != "" {
      StoredBeforeGrows(log, more, pc.row.event.parentId, pc.row.sequence);
    }
    if pc.FindingWinner? {
      FoundForever(log, more, pc.externalId);
    }
    if pc.Inserting? {
      FoundForever(log, more, pc.event.parentId);
    }
    if job.ToggleJob? {
      FoundForever(log, more, job.parent);
    }
  }
}
