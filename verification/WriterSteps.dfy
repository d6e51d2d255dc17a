/** Every step of the writers keeps the invariant. */
module WriterSteps {
  import opened AnnotationReaders
  import opened Contents
  import opened Model
  import opened Operations
  import opened Lookup
  import opened Policy
  import opened Sql
  import opened Text
  import opened Where
  import opened Writers

  // ----- The acting client

  lemma CloseRequestCloses(digest: string -> string, start: Event, op: Operation, user: UserIdentity, description: string)
    requires Starts(start, op) && user.name != "" && start.eventType != ""
    ensures ClosingRequest(digest, CloseRequest(digest, start, op, user, description), op)
  {
    var r := CloseRequest(digest, start, op, user, description);
    assert Tag(r.tags, CHANGE_ID) == Tag(start.tags, CHANGE_ID);
    assert Tag(r.tags, DEPLOY_ID) == Tag(start.tags, DEPLOY_ID);
  }

  lemma AfterLookupOk(digest: string -> string, log: Log, job: Job, request: Request, enforce: bool)
    requires RequestOf(digest, log, job, request, enforce)
    ensures PcOk(digest, log, job, AfterLookup(log, request, enforce))
  {
  }

  lemma UnenforcedRequest(request: Request)
    requires request.user.name != "" && request.eventType != "" && request.linksValid
    ensures ValidateCreateRequest(request, false) == Ok((request.eventType, request.tags))
  {
  }

  lemma AcceptedHasType(request: Request, enforce: bool)
    ensures ValidateCreateRequest(request, enforce).Ok? ==> ValidateCreateRequest(request, enforce).value.0 != ""
  {
    hide ValidatePhaseTags, ValidateClassificationTags, Normalized;
  }

  lemma AfterCheckOk(digest: string -> string, log: Log, job: Job, request: Request, enforce: bool, now: int)
    requires RequestOf(digest, log, job, request, enforce)
    ensures PcOk(digest, log, job, AfterCheck(log, request, enforce, now))
  {
    hide ValidateCreateRequest, Target, FindById, CloseId;
    AcceptedHasType(request, enforce);
    if job.CloseJob? {
      UnenforcedRequest(request);
    }
  }

  /** A stored start's operation has no NUL in its type or key. */
  lemma TargetIsClean(digest: string -> string, log: Log, next: nat, eventId: string)
    requires LogOk(digest, log, next) && Target(log, eventId).Some?
    ensures CleanOperation(Target(log, eventId).value)
  {
    var start := FindById(log, eventId).value;
    var row :| row in log && row.event == start;
    assert RowOk(digest, row.event);
    IdentityStarts(start, Target(log, eventId).value);
    assert NUL !in CHANGE_ID && NUL !in DEPLOY_ID;
  }

  lemma ParentAllocated(digest: string -> string, log: Log, next: nat, parentId: string)
    requires LogOk(digest, log, next) && FindById(log, parentId).Some?
    ensures StoredBefore(log, parentId, next) && parentId != ""
  {
    var row :| row in log && row.event == FindById(log, parentId).value;
    assert row.sequence < next && RowOk(digest, row.event);
  }

  lemma InsertedRowPending(digest: string -> string, log: Log, next: nat, job: Job, event: Event, id: string)
    requires LogOk(digest, log, next) && JobAllowed(job) && PcOk(digest, log, job, Inserting(event)) && id != "" && ColumnsStorable(event)
    ensures RowPending(digest, log, job, Row(next, event.(id := id)))
  {
    hide WellFormed, ValidateCreateRequest;
    if event.parentId != "" {
      ParentAllocated(digest, log, next, event.parentId);
    }
    if job.CloseJob? {
      TargetIsClean(digest, log, next, job.eventId);
      assert Closing(digest, event.(id := id), Target(log, job.eventId).value);
    }
  }

  lemma TransitionRowPending(digest: string -> string, log: Log, next: nat, job: Job, eventType: string, id: string, now: int)
    requires LogOk(digest, log, next) && JobAllowed(job) && PcOk(digest, log, job, InsertingTransition(eventType)) && id != ""
    requires ColumnsStorable(TransitionEvent(job, eventType, id, now))
    ensures RowPending(digest, log, job, Row(next, TransitionEvent(job, eventType, id, now)))
  {
    hide WellFormed;
    ParentAllocated(digest, log, next, job.parent);
  }

  lemma TransitionIsStorable(job: Job, eventType: string, id: string, now: int)
    requires job.ToggleJob? && (job.pair == STAR || job.pair == ALERT)
    requires eventType == job.pair.active || eventType == job.pair.inactive
    ensures Storable(TransitionEvent(job, eventType, id, now)) <==> CleanUser(job.toggler)
  {
    assert Clean(STAR.active) && Clean(STAR.inactive) && Clean(ALERT.active) && Clean(ALERT.inactive);
    assert Clean("starred") && Clean("unstarred") && Clean("alert opened") && Clean("alert cleared");
  }

  lemma TransitionContents(job: Job, eventType: string, id: string, now: int)
    requires job.ToggleJob? && (job.pair == STAR || job.pair == ALERT)
    requires eventType == job.pair.active || eventType == job.pair.inactive
    ensures TransitionBy(TransitionEvent(job, eventType, id, now), job.parent, job.pair, job.toggler, now)
  {
    assert STAR.active == "star" && STAR.inactive == "unstar" && ALERT.active == "alert" && ALERT.inactive == "clear-alert";
    assert "star"[0] == 's' && "unstar"[0] == 'u' && "alert"[0] == 'a' && "clear-alert"[0] == 'c';
  }

  lemma CloseRequestContents(digest: string -> string, start: Event, op: Operation, user: UserIdentity, description: string)
    requires Starts(start, op)
    ensures Closes(CloseRequest(digest, start, op, user, description), digest, start, op, user, description)
  {
    hide TrimSpace, EndTags, Starts;
    EndTagsKeepTags(start, op);
    assert Payload(op) == op.eventType + [NUL] + op.key + [NUL] + op.value;
    StartType(start, op);
  }

  lemma StartType(start: Event, op: Operation)
    requires Starts(start, op)
    ensures start.eventType == op.eventType
  {
  }

  lemma AfterStartOk(digest: string -> string, log: Log, next: nat, job: Job)
    requires LogOk(digest, log, next) && job.CloseJob?
    ensures PcOk(digest, log, job, AfterStart(log, job))
  {
  }

  lemma AfterStateOk(digest: string -> string, log: Log, next: nat, job: Job, start: Event)
    requires LogOk(digest, log, next) && PcOk(digest, log, job, ReadingState(start))
    ensures PcOk(digest, log, job, AfterState(digest, log, job, start))
  {
    hide WellFormed, ClosingRequest, CloseRequest, ColumnsStorable, AttachmentsStorable, HonestCloseId, Canonical, Ends;
    var op := Target(log, job.eventId).value;
    var row :| row in log && row.event == start;
    assert RowOk(digest, start);
    assert start in Events(log) && Starts(start, op);
    CloseRequestCloses(digest, start, op, job.closer, job.description);
  }

  lemma ActorFacts(digest: string -> string, s: State, i: nat)
    requires Inv(digest, s) && i < |s.clients|
    ensures LogOk(digest, s.log, s.next) && JobAllowed(s.clients[i].job) && PcOk(digest, s.log, s.clients[i].job, s.clients[i].pc)
  {
    hide PcOk, LogOk, JobAllowed;
    assert s.clients[i] in s.clients;
  }

  lemma ActorOk(digest: string -> string, s: State, i: nat, choice: Choice, s': State)
    requires Inv(digest, s) && StepOf(digest, s, i, choice, s')
    ensures PcOk(digest, s'.log, s'.clients[i].job, s'.clients[i].pc)
  {
    hide LogOk, PendingDistinct, KeysExclusive, LocksExclusive, JobAllowed, Produces, RequestOf, ExternalIdOf, RowOk, ParentOk,
      LatestTransition, Active, Open, ColumnsStorable, AttachmentsStorable, ValidateCreateRequest, FindById, FindByExternalId, TransitionEvent;
    var c := s.clients[i];
    assert c in s.clients;
    var effect := Act(digest, s, i, choice);
    if choice.fail {
      return;
    }
    match c.pc
    case LookingUp(request, enforce) => AfterLookupOk(digest, s.log, c.job, request, enforce);
    case Checking(request, enforce) => AfterCheckOk(digest, s.log, c.job, request, enforce, choice.now);
    case Inserting(event) =>
      if ColumnsStorable(event) {
        InsertedRowPending(digest, s.log, s.next, c.job, event, choice.id);
      }
    case AwaitingUnique(row) =>
      if row.event.externalId != "" {
        WinnerKeyOk(digest, s.log, c.job, row);
      }
    case Committing(row) =>
      PcOkGrows(digest, s.log, [row], c.job, c.pc);
      EventsAppend(s.log, row);
    case FindingWinner(externalId) =>
    case InsertingTransition(eventType) =>
      if ColumnsStorable(TransitionEvent(c.job, eventType, choice.id, choice.now)) {
        TransitionRowPending(digest, s.log, s.next, c.job, eventType, choice.id, choice.now);
      }
    case ReadingStart => AfterStartOk(digest, s.log, s.next, c.job);
    case ReadingState(start) => AfterStateOk(digest, s.log, s.next, c.job, start);
    case _ =>
  }

  lemma WinnerKeyOk(digest: string -> string, log: Log, job: Job, row: Row)
    requires !job.ToggleJob? && RowPending(digest, log, job, row) && row.event.externalId != ""
    ensures ExternalIdOf(digest, log, job, row.event.externalId)
  {
  }

  // ----- The log

  lemma LogStaysOk(digest: string -> string, s: State, i: nat, choice: Choice, s': State)
    requires Inv(digest, s) && StepOf(digest, s, i, choice, s')
    ensures LogOk(digest, s'.log, s'.next)
  {
    hide RowOk, LocksExclusive, StoredBefore;
    var c := s.clients[i];
    assert c in s.clients;
    var effect := Act(digest, s, i, choice);
    if effect.commit.Some? {
      var row := effect.commit.value;
      assert c.pc == Committing(row) && RowPending(digest, s.log, c.job, row);
      CommitKeepsWellFormed(s.log, row);
    }
  }

  lemma CommitKeepsWellFormed(log: Log, row: Row)
    requires WellFormed(log)
    requires forall other :: other in log ==> other.sequence != row.sequence && other.event.id != row.event.id
    requires row.event.externalId != "" ==> FindByExternalId(log, row.event.externalId).None?
    requires ParentOk(log, row.event.parentId, row.sequence) && row.event.eventType != ""
    ensures WellFormed(log + [row])
  {
    hide StoredBefore;
    forall r | r in log + [row] && r.event.parentId != "" ensures StoredBefore(log + [row], r.event.parentId, r.sequence) {
      StoredBeforeGrows(log, [row], r.event.parentId, r.sequence);
    }
  }

  // ----- Rows in flight

  /** A step creates a fresh row, carries its row along, or commits it. */
  lemma RowEvolution(digest: string -> string, s: State, i: nat, choice: Choice)
    requires i < |s.clients| && Act(digest, s, i, choice).Go?
    ensures var effect, pc := Act(digest, s, i, choice), s.clients[i].pc;
      && (effect.commit.Some? ==> pc == Committing(effect.commit.value) && effect.pc.Finished? && !effect.allocate)
      && (HasRow(effect.pc) ==>
            || (HasRow(pc) && effect.pc.row == pc.row && effect.commit.None? && !effect.allocate)
            || (effect.allocate && effect.commit.None? && effect.pc.row.sequence == s.next && Fresh(s, effect.pc.row.event.id)))
  {
    hide LatestTransition, Active, Open, ColumnsStorable, AttachmentsStorable, FindById, FindByExternalId, ValidateCreateRequest;
  }

  lemma PendingStaysDistinct(digest: string -> string, s: State, i: nat, choice: Choice, s': State)
    requires Inv(digest, s) && StepOf(digest, s, i, choice, s')
    ensures PendingDistinct(s')
  {
    hide PcOk, KeysExclusive, LocksExclusive, WellFormed, RowOk, Act;
    RowEvolution(digest, s, i, choice);
    var effect := Act(digest, s, i, choice);
    forall j | 0 <= j < |s.clients| && j != i ensures s'.clients[j] == s.clients[j] {
    }
    if effect.commit.Some? {
      forall j | 0 <= j < |s.clients| && j != i && HasRow(s.clients[j].pc)
        ensures s.clients[j].pc.row.sequence != effect.commit.value.sequence && s.clients[j].pc.row.event.id != effect.commit.value.event.id
      {
        assert HasRow(s.clients[i].pc) && (i < j || j < i);
      }
    }
  }

  // ----- Locks

  /** One client's change of keys keeps a pair of clients exclusive. */
  lemma PairKeepsKeys(s: State, s': State, i: nat, j: nat, k: nat, x: string)
    requires KeysExclusive(s) && i < |s.clients| && |s'.clients| == |s.clients|
    requires forall m :: 0 <= m < |s.clients| && m != i ==> s'.clients[m] == s.clients[m]
    requires HoldsKey(s'.clients[i], x) ==> HoldsKey(s.clients[i], x) || (!OthersHoldKey(s, i, x) && FindByExternalId(s.log, x).None?)
    requires j < |s.clients| && k < |s.clients| && j != k && HoldsKey(s'.clients[j], x)
    ensures !HoldsKey(s'.clients[k], x) && FindByExternalId(s.log, x).None?
  {
    hide HoldsKey, FindByExternalId;
    if j != i {
      assert HoldsKey(s.clients[j], x) && OthersHoldKey(s, i, x);
    }
  }

  lemma KeysStayExclusive(digest: string -> string, s: State, i: nat, choice: Choice, s': State)
    requires Inv(digest, s) && StepOf(digest, s, i, choice, s')
    ensures KeysExclusive(s')
  {
    hide Inv, Act, HoldsKey, Fits, OthersHoldKey, Apply, FindByExternalId;
    ActorFits(digest, s, i);
    OneClientMoves(digest, s, i, choice, s');
    KeyEvolution(digest, s, i, choice);
    forall j: nat, k: nat, x | j < k < |s.clients| && HoldsKey(s'.clients[j], x) ensures !HoldsKey(s'.clients[k], x) {
      PairKeepsKeys(s, s', i, j, k, x);
    }
    forall j: nat, x | j < |s.clients| && HoldsKey(s'.clients[j], x) ensures FindByExternalId(s'.log, x).None? {
      KeyStaysFree(digest, s, i, choice, s', j, x);
    }
  }

  /** A held key stays free of committed rows: only its own holder could commit one. */
  lemma KeyStaysFree(digest: string -> string, s: State, i: nat, choice: Choice, s': State, j: nat, x: string)
    requires Inv(digest, s) && StepOf(digest, s, i, choice, s')
    requires j < |s'.clients| && HoldsKey(s'.clients[j], x)
    ensures FindByExternalId(s'.log, x).None?
  {
    ActorFits(digest, s, i);
    OneClientMoves(digest, s, i, choice, s');
    KeyEvolution(digest, s, i, choice);
    RowEvolution(digest, s, i, choice);
    hide Inv, Act, Fits, OthersHoldKey, FindByExternalId;
    var effect := Act(digest, s, i, choice);
    if effect.commit.Some? {
      var row := effect.commit.value;
      assert j != i && HoldsKey(s.clients[j], x);
      assert row.event.externalId == x ==> HoldsKey(s.clients[i], x);
      NotFoundAfterAppend(s.log, row, x);
    }
  }

  lemma NotFoundAfterAppend(log: Log, row: Row, externalId: string)
    requires FindByExternalId(log, externalId).None? && row.event.externalId != externalId
    ensures FindByExternalId(log + [row], externalId).None?
  {
    EventsAppend(log, row);
    forall e | e in Events(log + [row]) ensures e.externalId != externalId {
      if e != row.event {
        var r :| r in log && r.event == e;
      }
    }
  }

  predicate Fits(c: Client) {
    && (c.job.ToggleJob? ==> !c.pc.AwaitingUnique? && !c.pc.AwaitingParent?)
    && (c.pc.InsertingTransition? ==> c.job.ToggleJob?)
  }

  lemma ActorFits(digest: string -> string, s: State, i: nat)
    requires Inv(digest, s) && i < |s.clients|
    ensures Fits(s.clients[i])
  {
    assert s.clients[i] in s.clients;
  }

  /** A key is acquired only when no other open transaction holds it and no committed row carries it. */
  lemma KeyEvolution(digest: string -> string, s: State, i: nat, choice: Choice)
    requires i < |s.clients| && Fits(s.clients[i]) && Act(digest, s, i, choice).Go?
    ensures forall x :: HoldsKey(s.clients[i].(pc := Act(digest, s, i, choice).pc), x) ==>
      HoldsKey(s.clients[i], x) || (!OthersHoldKey(s, i, x) && FindByExternalId(s.log, x).None?)
  {
    hide LatestTransition, Active, Open, ColumnsStorable, AttachmentsStorable, FindById, FindByExternalId, ValidateCreateRequest, Fresh;
  }

  /** One client's change of locks keeps a pair of clients exclusive. */
  lemma PairStaysExclusive(s: State, s': State, i: nat, j: nat, k: nat, p: string)
    requires LocksExclusive(s) && i < |s.clients| && |s'.clients| == |s.clients|
    requires forall m :: 0 <= m < |s.clients| && m != i ==> s'.clients[m] == s.clients[m]
    requires HoldsUpdate(s'.clients[i], p) ==> HoldsUpdate(s.clients[i], p) || (!OthersHoldUpdate(s, i, p) && !OthersHoldShare(s, i, p))
    requires HoldsShare(s'.clients[i], p) ==> HoldsShare(s.clients[i], p) || !OthersHoldUpdate(s, i, p)
    requires j < |s.clients| && k < |s.clients| && j != k && HoldsUpdate(s'.clients[j], p)
    ensures !HoldsUpdate(s'.clients[k], p) && !HoldsShare(s'.clients[k], p)
  {
    hide HoldsUpdate, HoldsShare;
    if j != i {
      assert HoldsUpdate(s.clients[j], p) && OthersHoldUpdate(s, i, p);
      assert !HoldsUpdate(s.clients[k], p) && !HoldsShare(s.clients[k], p);
    }
  }

  /** A step changes the program counter of one client only. */
  lemma OneClientMoves(digest: string -> string, s: State, i: nat, choice: Choice, s': State)
    requires Inv(digest, s) && StepOf(digest, s, i, choice, s')
    ensures LocksExclusive(s) && KeysExclusive(s) && |s'.clients| == |s.clients|
    ensures s'.clients[i] == s.clients[i].(pc := Act(digest, s, i, choice).pc)
    ensures forall m :: 0 <= m < |s.clients| && m != i ==> s'.clients[m] == s.clients[m]
  {
    hide Act;
  }

  lemma LocksStayExclusive(digest: string -> string, s: State, i: nat, choice: Choice, s': State)
    requires Inv(digest, s) && StepOf(digest, s, i, choice, s')
    ensures LocksExclusive(s')
  {
    hide Inv, Act, HoldsUpdate, HoldsShare, Fits, OthersHoldUpdate, OthersHoldShare, Apply;
    ActorFits(digest, s, i);
    OneClientMoves(digest, s, i, choice, s');
    LockEvolution(digest, s, i, choice);
    forall j: nat, k: nat, p | j < |s.clients| && k < |s.clients| && j != k && HoldsUpdate(s'.clients[j], p)
      ensures !HoldsUpdate(s'.clients[k], p) && !HoldsShare(s'.clients[k], p)
    {
      PairStaysExclusive(s, s', i, j, k, p);
    }
  }

  /** A row lock is acquired only when no other open transaction holds a conflicting one. */
  lemma LockEvolution(digest: string -> string, s: State, i: nat, choice: Choice)
    requires i < |s.clients| && Fits(s.clients[i]) && Act(digest, s, i, choice).Go?
    ensures var after := s.clients[i].(pc := Act(digest, s, i, choice).pc);
      && (forall p :: HoldsUpdate(after, p) ==> HoldsUpdate(s.clients[i], p) || (!OthersHoldUpdate(s, i, p) && !OthersHoldShare(s, i, p)))
      && (forall p :: HoldsShare(after, p) ==> HoldsShare(s.clients[i], p) || !OthersHoldUpdate(s, i, p))
  {
    hide LatestTransition, Active, Open, ColumnsStorable, AttachmentsStorable, FindById, FindByExternalId, ValidateCreateRequest, Fresh;
  }

  // ----- Assembly

  lemma StepKeepsInvariant(digest: string -> string, s: State, i: nat, choice: Choice, s': State)
    requires Inv(digest, s) && StepOf(digest, s, i, choice, s')
    ensures Inv(digest, s')
    ensures s.log <= s'.log
  {
    ActorOk(digest, s, i, choice, s');
    LogStaysOk(digest, s, i, choice, s');
    PendingStaysDistinct(digest, s, i, choice, s');
    KeysStayExclusive(digest, s, i, choice, s');
    LocksStayExclusive(digest, s, i, choice, s');
    hide LogOk, PendingDistinct, KeysExclusive, LocksExclusive, Act, PcOk, JobAllowed;
    var effect := Act(digest, s, i, choice);
    var more := if effect.commit.Some? then [effect.commit.value] else [];
    assert s'.log == s.log + more;
    forall c | c in s'.clients ensures JobAllowed(c.job) && PcOk(digest, s'.log, c.job, c.pc) {
      var j :| 0 <= j < |s'.clients| && s'.clients[j] == c;
      assert s.clients[j] in s.clients;
      if j != i {
        PcOkGrows(digest, s.log, more, c.job, c.pc);
      }
    }
  }
}
