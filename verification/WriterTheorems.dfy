/** What every run of concurrent writers guarantees. */
module WriterTheorems {
  import opened AnnotationReaders
  import opened Model
  import opened Operations
  import opened Lookup
  import opened Policy
  import opened Writers
  import opened WriterSteps
  import opened Where

  // ----- Safety over whole runs

  lemma InitialInvariant(digest: string -> string, s: State)
    requires Initial(digest, s)
    ensures Inv(digest, s)
  {
    hide LogOk;
    forall c | c in s.clients ensures PcOk(digest, s.log, c.job, c.pc) && !HasRow(c.pc) {
    }
    forall i | 0 <= i < |s.clients|
      ensures !HasRow(s.clients[i].pc)
      ensures forall x :: !HoldsKey(s.clients[i], x) && !HoldsUpdate(s.clients[i], x)
    {
      assert s.clients[i] in s.clients;
    }
  }

  /** The invariant holds in every state of every run, and the log only grows:
      a stored event is never changed or removed. */
  lemma {:induction false} RunInvariant(digest: string -> string, states: seq<State>, from: nat, k: nat)
    requires Run(digest, states) && from <= k < |states|
    ensures Inv(digest, states[k])
    ensures states[from].log <= states[k].log
    ensures |states[k].clients| == |states[0].clients|
    ensures forall i :: 0 <= i < |states[k].clients| ==> states[k].clients[i].job == states[0].clients[i].job
    decreases k
  {
    hide Inv, Initial;
    if k == 0 {
      InitialInvariant(digest, states[0]);
    } else {
      RunInvariant(digest, states, if from < k then from else k - 1, k - 1);
      assert Step(digest, states[k - 1], states[k]);
      var i, choice :| StepOf(digest, states[k - 1], i, choice, states[k]);
      StepKeepsInvariant(digest, states[k - 1], i, choice, states[k]);
    }
  }

  /** In every reachable state external ids are unique, event types are present,
      and every parent was ingested earlier. */
  lemma StoreStaysWellFormed(digest: string -> string, states: seq<State>, k: nat)
    requires Run(digest, states) && k < |states|
    ensures WellFormed(states[k].log)
  {
    hide Run;
    RunInvariant(digest, states, k, k);
  }

  /** A chain of parents, child first. */
  ghost predicate ParentChain(log: Log, chain: seq<Row>) {
    && (forall k :: 0 <= k < |chain| ==> chain[k] in log)
    && (forall k :: 0 <= k < |chain| - 1 ==> chain[k].event.parentId != "" && chain[k].event.parentId == chain[k + 1].event.id)
  }

  /** Parent chains are finite and acyclic: sequence numbers fall along them. */
  lemma {:induction false} ParentChainsEnd(log: Log, chain: seq<Row>)
    requires WellFormed(log) && ParentChain(log, chain) && chain != []
    ensures |chain| <= chain[0].sequence + 1
    ensures forall k :: 0 < k < |chain| ==> chain[k].sequence < chain[0].sequence && chain[k].event.id != chain[0].event.id
    decreases |chain|
  {
    if |chain| > 1 {
      var tail := chain[1..];
      assert ParentChain(log, tail) by {
        forall k | 0 <= k < |tail| - 1
          ensures tail[k].event.parentId != "" && tail[k].event.parentId == tail[k + 1].event.id
        {
          assert tail[k] == chain[k + 1] && tail[k + 1] == chain[k + 2];
        }
      }
      ParentChainsEnd(log, tail);
      assert chain[0] in log && StoredBefore(log, chain[0].event.parentId, chain[0].sequence);
      var parent :| parent in log && parent.event.id == chain[0].event.parentId && parent.sequence < chain[0].sequence;
      SameRow(log, parent, chain[1]);
      forall k | 0 < k < |chain| ensures chain[k].sequence < chain[0].sequence && chain[k].event.id != chain[0].event.id {
        assert k > 1 ==> chain[k] == tail[k - 1];
        assert chain[k] in log;
        if chain[k].event.id == chain[0].event.id {
          SameRow(log, chain[k], chain[0]);
        }
      }
    }
  }

  lemma SameRow(log: Log, a: Row, b: Row)
    requires WellFormed(log) && a in log && b in log && a.event.id == b.event.id
    ensures a == b
  {
    var i :| 0 <= i < |log| && log[i] == a;
    var j :| 0 <= j < |log| && log[j] == b;
    assert !(i < j) && !(j < i);
  }

  // ----- What a job reports missing

  /** The job has not yet read the event it needs: its parent, its start or its target. */
  predicate HasNotLooked(c: Client) {
    match c.job
    case CreateJob(_) => c.pc.LookingUp? || c.pc.Checking?
    case ToggleJob(_, _, _) => c.pc.LockingParent?
    case CloseJob(_, _, _) => c.pc.ReadingStart?
  }

  /** The event the job needs; a create without a parent needs none. */
  function Needed(job: Job): string {
    match job
    case CreateJob(request) => request.parentId
    case ToggleJob(parent, _, _) => parent
    case CloseJob(eventId, _, _) => eventId
  }

  predicate ReportsMissing(c: Client) {
    c.pc.Finished? && (c.pc.outcome.EventNotFound? || (c.job.CreateJob? && c.pc.outcome.ParentNotFound?))
  }

  lemma MissingBefore(earlier: Log, log: Log, id: string)
    requires earlier <= log && FindById(log, id).None?
    ensures FindById(earlier, id).None?
  {
    assert log == earlier + log[|earlier|..];
    FoundForever(earlier, log[|earlier|..], id);
  }

  /** A job reports an event missing in the step that looks for it, and only when it is. */
  lemma ReportedIsMissing(digest: string -> string, s: State, i: nat, choice: Choice)
    requires Inv(digest, s) && i < |s.clients| && Act(digest, s, i, choice).Go?
    requires ReportsMissing(s.clients[i].(pc := Act(digest, s, i, choice).pc))
    ensures FindById(s.log, Needed(s.clients[i].job)).None?
  {
    hide Inv, LogOk, JobAllowed, RowPending, Produces, ColumnsStorable, AttachmentsStorable, TransitionEvent, ExternalIdOf, OutcomeOk,
      ValidateCreateRequest, FindById, FindByExternalId, LatestTransition, Active, Open, Fresh, Target, RowOk, ParentOk,
      OthersHoldKey, OthersHoldUpdate, OthersHoldShare, ClosingRequest;
    ActorFacts(digest, s, i);
  }

  /** What a job reports missing was missing in every state in which it had not yet looked. */
  lemma {:induction false} MissingThroughout(digest: string -> string, states: seq<State>, j: nat, k: nat, i: nat)
    requires Run(digest, states) && j <= k < |states| && i < |states[j].clients|
    requires HasNotLooked(states[j].clients[i])
    ensures i < |states[k].clients| && states[k].clients[i].job == states[j].clients[i].job
    ensures ReportsMissing(states[k].clients[i]) ==> FindById(states[j].log, Needed(states[k].clients[i].job)).None?
    decreases k
  {
    hide Inv, Act, FindById, Needed, Initial;
    RunInvariant(digest, states, j, k);
    RunInvariant(digest, states, j, j);
    if j < k {
      MissingThroughout(digest, states, j, k - 1, i);
      RunInvariant(digest, states, j, k - 1);
      assert Step(digest, states[k - 1], states[k]);
      var actor: nat, choice :| StepOf(digest, states[k - 1], actor, choice, states[k]);
      if actor == i && ReportsMissing(states[k].clients[i]) {
        ReportedIsMissing(digest, states[k - 1], i, choice);
        MissingBefore(states[j].log, states[k - 1].log, Needed(states[k].clients[i].job));
      }
    }
  }

  /** The event a job needs is stored in no state of the run in which it had not yet looked. */
  ghost predicate NeverSeen(states: seq<State>, k: nat, i: nat)
    requires k < |states| && i < |states[k].clients|
  {
    forall j :: 0 <= j <= k && i < |states[j].clients| && HasNotLooked(states[j].clients[i]) ==>
      FindById(states[j].log, Needed(states[k].clients[i].job)).None?
  }

  lemma MissingWasNeverSeen(digest: string -> string, states: seq<State>, k: nat, i: nat)
    requires Run(digest, states) && k < |states| && i < |states[k].clients| && ReportsMissing(states[k].clients[i])
    ensures NeverSeen(states, k, i)
  {
    hide Run, FindById, Needed, ReportsMissing, HasNotLooked;
    forall j | 0 <= j <= k && i < |states[j].clients| && HasNotLooked(states[j].clients[i])
      ensures FindById(states[j].log, Needed(states[k].clients[i].job)).None?
    {
      MissingThroughout(digest, states, j, k, i);
    }
  }

  // ----- Idempotent create

  /** The event a finished job returns, if it returns one. */
  function Returned(outcome: Outcome): Option<Event> {
    match outcome
    case Created(e) => Some(e)
    case Duplicate(existing) => existing
    case _ => None
  }

  ghost predicate OnlyEventWith(log: Log, e: Event, externalId: string) {
    e in Events(log) && e.externalId == externalId && forall other :: other in Events(log) && other.externalId == externalId ==> other == e
  }

  lemma StoredIsOnly(log: Log, e: Event)
    requires DistinctExternalIds(log) && e in Events(log) && e.externalId != ""
    ensures OnlyEventWith(log, e, e.externalId)
  {
    forall other | other in Events(log) && other.externalId == e.externalId ensures other == e {
      SameExternalId(log, e, other);
    }
  }

  /** Every finished create either returns the one stored event that carries its
      external id, whatever the payload, or was rejected by validation, or had a
      parent that was missing whenever it could have looked, or met a database
      error; a duplicate always carries an event. */
  lemma CreateResult(digest: string -> string, states: seq<State>, k: nat, i: nat)
    requires Run(digest, states) && k < |states| && i < |states[k].clients|
    requires states[k].clients[i].job.CreateJob? && states[k].clients[i].pc.Finished?
    ensures var request, outcome := states[k].clients[i].job.request, states[k].clients[i].pc.outcome;
      && (outcome.Duplicate? ==> outcome.existing.Some?)
      && (Returned(outcome).Some? ==> Returned(outcome).value.externalId == request.externalId && Returned(outcome).value in Events(states[k].log))
      && (Returned(outcome).Some? && request.externalId != "" ==> OnlyEventWith(states[k].log, Returned(outcome).value, request.externalId))
      && (Returned(outcome).None? ==>
            || (outcome.Rejected? && ValidateCreateRequest(request, true) == Err(outcome.error))
            || (outcome.ParentNotFound? && request.parentId != "" && NeverSeen(states, k, i))
            || outcome.DatabaseError?)
  {
    hide Run, ValidateCreateRequest, NeverSeen;
    RunInvariant(digest, states, k, k);
    var s, c := states[k], states[k].clients[i];
    if c.pc.outcome.ParentNotFound? {
      MissingWasNeverSeen(digest, states, k, i);
    }
    assert c in s.clients;
    var e := Returned(c.pc.outcome);
    if e.Some? && e.value.externalId != "" {
      StoredIsOnly(s.log, e.value);
    }
  }

  /** Concurrent creates with one external id all return the same event. */
  lemma ConcurrentCreatesAgree(digest: string -> string, states: seq<State>, k: nat, i: nat, j: nat)
    requires Run(digest, states) && k < |states| && i < |states[k].clients| && j < |states[k].clients|
    requires states[k].clients[i].job.CreateJob? && states[k].clients[j].job.CreateJob?
    requires states[k].clients[i].job.request.externalId == states[k].clients[j].job.request.externalId != ""
    requires states[k].clients[i].pc.Finished? && Returned(states[k].clients[i].pc.outcome).Some?
    requires states[k].clients[j].pc.Finished? && Returned(states[k].clients[j].pc.outcome).Some?
    ensures Returned(states[k].clients[i].pc.outcome) == Returned(states[k].clients[j].pc.outcome)
  {
    hide Run;
    CreateResult(digest, states, k, i);
    CreateResult(digest, states, k, j);
  }

  // ----- Concurrent close

  lemma CloseOf(digest: string -> string, log: Log, next: nat, e: Event, op: Operation)
    requires Injective(digest) && LogOk(digest, log, next) && CleanOperation(op)
    requires e in Events(log) && e.externalId == CloseId(digest, op)
    ensures Ends(e, op) && Ended(Events(log), op)
  {
    var row :| row in log && row.event == e;
    CloseIdIsCloseText(digest, op);
    assert RowOk(digest, e);
    var owner :| CleanOperation(owner) && e.externalId == CloseId(digest, owner) && Ends(e, owner);
    CloseIdInjective(digest, op, owner);
  }

  /** A finished close by a named user returns the one stored event with the
      operation's closing identifier, which ends that operation, or reports the
      operation closed when it is; the rest name an event that was missing until
      the close looked, an event that starts nothing, or a fault. */
  lemma CloseResult(digest: string -> string, states: seq<State>, k: nat, i: nat)
    requires Injective(digest) && Run(digest, states) && k < |states| && i < |states[k].clients|
    requires states[k].clients[i].job.CloseJob? && states[k].clients[i].job.closer.name != "" && states[k].clients[i].pc.Finished?
    ensures var log, outcome := states[k].log, states[k].clients[i].pc.outcome;
      var target := Target(log, states[k].clients[i].job.eventId);
      && (Returned(outcome).Some? ==>
            && target.Some?
            && OnlyEventWith(log, Returned(outcome).value, CloseId(digest, target.value))
            && Ends(Returned(outcome).value, target.value)
            && Ended(Events(log), target.value))
      && (outcome.OperationClosed? ==> target.Some? && Ended(Events(log), target.value))
      && (Returned(outcome).Some? || outcome.OperationClosed? || outcome.EventNotFound? || outcome.NotClosable? || outcome.DatabaseError?)
      && (outcome.EventNotFound? ==> NeverSeen(states, k, i))
      && (outcome.NotClosable? ==> FindById(log, states[k].clients[i].job.eventId).Some? && target.None?)
  {
    hide Run, Ended, WellFormed, RowOk, NeverSeen;
    RunInvariant(digest, states, k, k);
    if states[k].clients[i].pc.outcome.EventNotFound? {
      MissingWasNeverSeen(digest, states, k, i);
    }
    var s, c := states[k], states[k].clients[i];
    assert c in s.clients;
    var e := Returned(c.pc.outcome);
    if e.Some? {
      var op := Target(s.log, c.job.eventId).value;
      TargetIsClean(digest, s.log, s.next, c.job.eventId);
      CloseOf(digest, s.log, s.next, e.value, op);
      StoreStaysWellFormed(digest, states, k);
      assert DistinctExternalIds(s.log) by { IndexesOf(s.log); }
      CloseIdIsCloseText(digest, op);
      StoredIsOnly(s.log, e.value);
    }
  }

  lemma IndexesOf(log: Log)
    requires WellFormed(log)
    ensures DistinctExternalIds(log) && DistinctIds(log) && DistinctSequences(log)
  {
  }

  /** Closes of one operation, even through different duplicate starts, return the same event. */
  lemma ConcurrentClosesAgree(digest: string -> string, states: seq<State>, k: nat, i: nat, j: nat)
    requires Injective(digest) && Run(digest, states) && k < |states| && i < |states[k].clients| && j < |states[k].clients|
    requires states[k].clients[i].job.CloseJob? && states[k].clients[j].job.CloseJob?
    requires states[k].clients[i].job.closer.name != "" && states[k].clients[j].job.closer.name != ""
    requires Target(states[k].log, states[k].clients[i].job.eventId) == Target(states[k].log, states[k].clients[j].job.eventId)
    requires states[k].clients[i].pc.Finished? && Returned(states[k].clients[i].pc.outcome).Some?
    requires states[k].clients[j].pc.Finished? && Returned(states[k].clients[j].pc.outcome).Some?
    ensures Returned(states[k].clients[i].pc.outcome) == Returned(states[k].clients[j].pc.outcome)
  {
    hide Run, Ended;
    CloseResult(digest, states, k, i);
    CloseResult(digest, states, k, j);
  }

  /** After a successful close the operation is closed in every later state of the run. */
  lemma ClosedForGood(digest: string -> string, states: seq<State>, k: nat, later: nat, i: nat)
    requires Injective(digest) && Run(digest, states) && k <= later < |states| && i < |states[k].clients|
    requires states[k].clients[i].job.CloseJob? && states[k].clients[i].job.closer.name != ""
    requires states[k].clients[i].pc.Finished? && Returned(states[k].clients[i].pc.outcome).Some?
    ensures Target(states[k].log, states[k].clients[i].job.eventId).Some?
    ensures !Open(Events(states[later].log), Target(states[k].log, states[k].clients[i].job.eventId).value)
  {
    hide Run, Inv, Target, OnlyEventWith, Ends, CloseId;
    CloseResult(digest, states, k, i);
    RunInvariant(digest, states, k, later);
    var more := states[later].log[|states[k].log|..];
    assert states[later].log == states[k].log + more;
    EventsGrow(states[k].log, more);
    EndedForever(Events(states[k].log), Events(states[later].log), Target(states[k].log, states[k].clients[i].job.eventId).value);
  }

  /** The close has read its operation's state and carries on, or has returned an event. */
  predicate PassedStateCheck(c: Client) {
    && c.job.CloseJob?
    && match c.pc
       case ReadingStart => false
       case ReadingState(_) => false
       case Finished(outcome) => Returned(outcome).Some?
       case _ => true
  }

  lemma OnlyOpenPasses(digest: string -> string, s: State, i: nat, choice: Choice)
    requires Inv(digest, s) && i < |s.clients| && Act(digest, s, i, choice).Go? && !PassedStateCheck(s.clients[i])
    requires PassedStateCheck(s.clients[i].(pc := Act(digest, s, i, choice).pc))
    ensures s.clients[i].pc.ReadingState? && Target(s.log, s.clients[i].job.eventId).Some?
    ensures Open(Events(s.log), Target(s.log, s.clients[i].job.eventId).value)
  {
    hide Inv, LogOk, JobAllowed, RowPending, Produces, ColumnsStorable, AttachmentsStorable, TransitionEvent, ExternalIdOf, OutcomeOk,
      ValidateCreateRequest, FindById, FindByExternalId, LatestTransition, Active, Open, Fresh, RowOk, ParentOk,
      OthersHoldKey, OthersHoldUpdate, OthersHoldShare, ClosingRequest, CloseRequest;
    ActorFacts(digest, s, i);
  }

  lemma PassingStep(digest: string -> string, states: seq<State>, k: nat, i: nat)
    requires Run(digest, states) && 0 < k < |states| && i < |states[k].clients| == |states[k - 1].clients|
    requires PassedStateCheck(states[k].clients[i]) && !PassedStateCheck(states[k - 1].clients[i])
    ensures states[k - 1].clients[i].pc.ReadingState? && Target(states[k - 1].log, states[k - 1].clients[i].job.eventId).Some?
    ensures Open(Events(states[k - 1].log), Target(states[k - 1].log, states[k - 1].clients[i].job.eventId).value)
  {
    hide Inv, Act, Open, Target, PassedStateCheck, Initial;
    RunInvariant(digest, states, k - 1, k - 1);
    assert Step(digest, states[k - 1], states[k]);
    var actor: nat, choice :| StepOf(digest, states[k - 1], actor, choice, states[k]);
    OnlyOpenPasses(digest, states[k - 1], i, choice);
  }

  lemma TargetGrows(log: Log, later: Log, eventId: string)
    requires log <= later && Target(log, eventId).Some?
    ensures Target(later, eventId) == Target(log, eventId)
  {
    hide Target, FindById;
    assert later == log + later[|log|..];
    TargetStable(log, later[|log|..], eventId);
  }

  /** A close goes past its state check, and so returns an event, only after it found
      its operation open: the end it commits, or the one it lost to, came later. */
  lemma {:induction false} CloseFoundOpen(digest: string -> string, states: seq<State>, k: nat, i: nat) returns (m: nat)
    requires Run(digest, states) && k < |states| && i < |states[k].clients|
    requires states[k].clients[i].job.CloseJob? && PassedStateCheck(states[k].clients[i])
    ensures m < k && i < |states[m].clients| && states[m].clients[i].pc.ReadingState? && states[m].log <= states[k].log
    ensures var eventId := states[k].clients[i].job.eventId;
      && Target(states[m].log, eventId).Some? && Target(states[m].log, eventId) == Target(states[k].log, eventId)
      && Open(Events(states[m].log), Target(states[m].log, eventId).value)
    decreases k
  {
    hide Run, Inv, Open, Target, PassedStateCheck;
    if k == 0 {
      NothingPassedYet(digest, states, i);
    } else {
      RunInvariant(digest, states, k, k);
      RunInvariant(digest, states, k - 1, k - 1);
      assert states[k - 1].log <= states[k].log by { RunInvariant(digest, states, k - 1, k); }
      assert states[k - 1].clients[i].job == states[k].clients[i].job;
      if PassedStateCheck(states[k - 1].clients[i]) {
        m := CloseFoundOpen(digest, states, k - 1, i);
      } else {
        PassingStep(digest, states, k, i);
        m := k - 1;
      }
      TargetGrows(states[k - 1].log, states[k].log, states[k].clients[i].job.eventId);
    }
  }

  lemma NothingPassedYet(digest: string -> string, states: seq<State>, i: nat)
    requires Run(digest, states) && i < |states[0].clients|
    ensures !PassedStateCheck(states[0].clients[i])
  {
    hide LogOk;
    assert states[0].clients[i] in states[0].clients;
  }

  // ----- Progress

  function Rank(pc: Pc): nat {
    match pc
    case ReadingStart => 8
    case ReadingState(_) => 7
    case LookingUp(_, _) => 6
    case Checking(_, _) => 5
    case Inserting(_) => 4
    case LockingParent => 4
    case AwaitingUnique(_) => 3
    case ReadingLatest => 3
    case AwaitingParent(_) => 2
    case InsertingTransition(_) => 2
    case Committing(_) => 1
    case FindingWinner(_) => 1
    case Finished(_) => 0
  }

  function TotalRank(clients: seq<Client>): nat {
    if clients == [] then 0 else Rank(clients[0].pc) + TotalRank(clients[1..])
  }

  lemma {:induction false} TotalRankFalls(clients: seq<Client>, i: nat, c: Client)
    requires i < |clients| && Rank(c.pc) < Rank(clients[i].pc)
    ensures TotalRank(clients[i := c]) < TotalRank(clients)
  {
    if i == 0 {
      assert clients[i := c][1..] == clients[1..];
    } else {
      assert clients[i := c][1..] == clients[1..][i - 1 := c];
      TotalRankFalls(clients[1..], i - 1, c);
    }
  }

  lemma {:induction false} TotalRankBound(clients: seq<Client>)
    ensures TotalRank(clients) <= 8 * |clients|
  {
    if clients != [] {
      TotalRankBound(clients[1..]);
    }
  }

  lemma StepAdvances(digest: string -> string, s: State, i: nat, choice: Choice)
    requires i < |s.clients| && Act(digest, s, i, choice).Go?
    ensures Rank(Act(digest, s, i, choice).pc) < Rank(s.clients[i].pc)
  {
    hide LatestTransition, Active, Open, ColumnsStorable, AttachmentsStorable, FindById, FindByExternalId, ValidateCreateRequest, Fresh;
  }

  /** Every run is finite: at most eight statements per job. */
  lemma {:induction false} RunsAreBounded(digest: string -> string, states: seq<State>, k: nat)
    requires Run(digest, states) && k < |states|
    ensures k + TotalRank(states[k].clients) <= 8 * |states[0].clients|
    decreases k
  {
    hide Initial, Act;
    if k == 0 {
      TotalRankBound(states[0].clients);
    } else {
      RunsAreBounded(digest, states, k - 1);
      var s := states[k - 1];
      assert Step(digest, s, states[k]);
      var i: nat, choice :| StepOf(digest, s, i, choice, states[k]);
      StepAdvances(digest, s, i, choice);
      TotalRankFalls(s.clients, i, states[k].clients[i]);
    }
  }

  function Longer(ids: seq<string>): (r: string)
    ensures r != ""
    ensures forall k :: 0 <= k < |ids| ==> |ids[k]| < |r|
  {
    if ids == [] then "x" else ids[0] + Longer(ids[1..])
  }

  lemma FreshIdExists(s: State) returns (id: string)
    ensures Fresh(s, id)
  {
    var stored := seq(|s.log|, k requires 0 <= k < |s.log| => s.log[k].event.id);
    var pending := seq(|s.clients|, k requires 0 <= k < |s.clients| => if HasRow(s.clients[k].pc) then s.clients[k].pc.row.event.id else "");
    id := Longer(stored + pending);
    forall row | row in s.log ensures row.event.id != id {
      var k :| 0 <= k < |s.log| && s.log[k] == row;
      assert (stored + pending)[k] == row.event.id;
    }
    forall j | 0 <= j < |s.clients| && HasRow(s.clients[j].pc) ensures s.clients[j].pc.row.event.id != id {
      assert (stored + pending)[|stored| + j] == s.clients[j].pc.row.event.id;
    }
  }

  ghost predicate Enabled(digest: string -> string, s: State, i: nat, choice: Choice) {
    i < |s.clients| && !choice.fail && Act(digest, s, i, choice).Go?
  }

  /** No deadlock: while some job is unfinished, some client can take a step
      that is not a database failure. */
  lemma NeverStuck(digest: string -> string, s: State, unfinished: nat) returns (i: nat, choice: Choice)
    requires Inv(digest, s) && unfinished < |s.clients| && !s.clients[unfinished].pc.Finished?
    ensures Enabled(digest, s, i, choice)
  {
    hide LogOk, PendingDistinct, KeysExclusive, LocksExclusive, JobAllowed;
    hide Produces, RequestOf, ExternalIdOf, RowPending, OutcomeOk, LatestTransition, Active, Open, ColumnsStorable, AttachmentsStorable,
      FindById, FindByExternalId, ValidateCreateRequest, Fresh, Target;
    var id := FreshIdExists(s);
    choice := Choice(id, 0, false);
    forall c | c in s.clients ensures PcOk(digest, s.log, c.job, c.pc) {
    }
    if j :| 0 <= j < |s.clients| && s.clients[j].job.ToggleJob? && HoldsUpdate(s.clients[j], s.clients[j].job.parent) {
      // A lock holder waits for nothing.
      assert s.clients[j] in s.clients;
      i := j;
    } else {
      assert forall j, p :: 0 <= j < |s.clients| ==> !HoldsUpdate(s.clients[j], p);
      if j :| 0 <= j < |s.clients| && (s.clients[j].pc.AwaitingParent? || s.clients[j].pc.Committing?) {
        // A key holder waits for a FOR UPDATE lock only, and nobody holds one.
        assert s.clients[j] in s.clients;
        i := j;
      } else {
        // Nothing is locked at all.
        assert s.clients[unfinished] in s.clients;
        i := unfinished;
      }
    }
  }
}
