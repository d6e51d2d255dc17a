/** The registry as one caller sees it: service and store over the tables, with
    the log they hold as ghost state. */
module Registry {
  import opened Model
  import opened AnnotationReaders
  import opened Activity
  import opened Contents
  import opened CurrentQuery
  import opened EventList
  import opened Lookup
  import opened Operations
  import opened Policy
  import opened Sql
  import opened Text
  import opened Where
  import opened Writers
  import opened WriterSteps
  import Toggles

  // ----- The sequential meaning of create

  /** service.create without interference: the outcome and the row it appends, if any. */
  function Submit(log: Log, next: nat, request: Request, enforce: bool, id: string, now: int): (Outcome, Option<Row>) {
    var existing := FindByExternalId(log, request.externalId);
    if request.externalId != "" && existing.Some? then (Duplicate(existing), None)
    else match ValidateCreateRequest(request, enforce)
      case Err(error) => (Rejected(error), None)
      case Ok((eventType, tags)) =>
        if request.parentId != "" && FindById(log, request.parentId).None? then (ParentNotFound, None)
        else
          var event := BuildEvent(request, eventType, tags, now).(id := id);
          if !Storable(event) then (DatabaseError, None) else (Created(event), Some(Row(next, event)))
  }

  function Appended(log: Log, row: Option<Row>): Log {
    if row.Some? then log + [row.value] else log
  }

  ghost predicate FreshId(log: Log, id: string) {
    id != "" && forall row :: row in log ==> row.event.id != id
  }

  ghost predicate HonestLog(digest: string -> string, log: Log) {
    forall row :: row in log ==> HonestCloseId(digest, row.event)
  }

  /** What a caller brings to a close holds no NUL: the rest of the end event is already stored. */
  predicate EndIsStorable(digest: string -> string, op: Operation, user: UserIdentity, description: string) {
    && NUL !in user.name && NUL !in user.provider && NUL !in user.subject
    && NUL !in TrimSpace(description) && NUL !in CloseId(digest, op)
  }

  /** No text the request would store holds a NUL. */
  predicate TextsAreClean(request: Request, accepted: (string, Tags)) {
    && NUL !in request.externalId && NUL !in request.user.name && NUL !in request.user.provider && NUL !in request.user.subject
    && NUL !in accepted.0 && NUL !in request.description && NUL !in request.longDescription
    && (forall key :: key in accepted.1 ==> NUL !in key && NUL !in accepted.1[key])
    && (forall link :: link in request.links ==> NUL !in link.linkLabel && NUL !in link.url)
  }

  ghost predicate StoredRow(row: Row, next: nat) {
    row.sequence < next && row.event.id != "" && Storable(row.event) && Canonical(row.event)
  }

  /** Inserting the rows of one event keeps the tables in step with the log. */
  lemma RepresentsAppend(db: Tables, log: Log, row: Row, tagRows: seq<TagRow>)
    requires Represents(db, log) && FreshId(log, row.event.id) && Canonical(row.event)
    requires forall i, j :: 0 <= i < j < |tagRows| ==> tagRows[i].key != tagRows[j].key
    requires forall t :: t in tagRows <==> t.eventId == row.event.id && t.key in row.event.tags && row.event.tags[t.key] == t.value
    ensures Represents(Tables(db.events + [Encode(row)], db.tags + tagRows), log + [row])
  {
    var log' := log + [row];
    var tags := db.tags + tagRows;
    forall t | t in tags ensures Tagged(log', t) {
      if t in tagRows {
        assert row in log';
      } else {
        assert Tagged(log, t);
        var owner :| owner in log && owner.event.id == t.eventId && t.key in owner.event.tags && owner.event.tags[t.key] == t.value;
        assert owner in log';
      }
    }
    forall i, j | 0 <= i < j < |tags| ensures (tags[i].eventId, tags[i].key) != (tags[j].eventId, tags[j].key) {
      if i < |db.tags| <= j {
        assert tags[i] in db.tags && Tagged(log, tags[i]);
        assert tags[j] in tagRows;
      }
    }
  }

  class Registry {
    const digest: string -> string
    var events: seq<EventRow>
    var tags: seq<TagRow>
    var next: nat
    ghost var log: Log

    function Db(): Tables
      reads this
    {
      Tables(events, tags)
    }

    ghost predicate Valid()
      reads this
    {
      && Represents(Db(), log)
      && WellFormed(log)
      && forall row :: row in log ==> StoredRow(row, next)
    }

    constructor (digest: string -> string)
      ensures Valid() && log == [] && next == 0 && this.digest == digest
    {
      this.digest := digest;
      events, tags, next, log := [], [], 0, [];
    }

    /** insertTags: one row per entry, in whatever order the map is iterated. */
    method TagRowsFor(eventId: string, wanted: Tags) returns (rows: seq<TagRow>)
      ensures forall i, j :: 0 <= i < j < |rows| ==> rows[i].key != rows[j].key
      ensures forall t :: t in rows <==> t.eventId == eventId && t.key in wanted && wanted[t.key] == t.value
    {
      rows := [];
      var remaining := wanted.Keys;
      while remaining != {}
        invariant remaining <= wanted.Keys
        invariant forall i, j :: 0 <= i < j < |rows| ==> rows[i].key != rows[j].key
        invariant forall t :: t in rows <==> t.eventId == eventId && t.key in wanted.Keys - remaining && wanted[t.key] == t.value
        decreases remaining
      {
        var k :| k in remaining;
        forall i | 0 <= i < |rows| ensures rows[i].key != k {
          assert rows[i] in rows;
        }
        rows := rows + [TagRow(eventId, k, wanted[k])];
        remaining := remaining - {k};
      }
    }

    /** The insert transaction of Store.Create. */
    method Insert(event: Event)
      requires Valid() && FreshId(log, event.id) && Storable(event) && event.eventType != ""
      requires event.externalId != "" ==> FindByExternalId(log, event.externalId).None?
      requires event.parentId != "" ==> FindById(log, event.parentId).Some?
      requires Canonical(event)
      modifies this
      ensures Valid() && log == old(log) + [Row(old(next), event)] && next == old(next) + 1
    {
      var tagRows := TagRowsFor(event.id, event.tags);
      var sequence := next;
      ghost var row := Row(sequence, event);
      InsertKeepsWellFormed(log, next, row);
      RepresentsAppend(Db(), log, row, tagRows);
      events := events + [Encode(Row(sequence, event))];
      tags := tags + tagRows;
      next := next + 1;
      log := log + [row];
    }

    static lemma InsertKeepsWellFormed(log: Log, next: nat, row: Row)
      requires WellFormed(log) && (forall r :: r in log ==> r.sequence < next)
      requires row.sequence == next && FreshId(log, row.event.id) && row.event.eventType != ""
      requires row.event.externalId != "" ==> FindByExternalId(log, row.event.externalId).None?
      requires row.event.parentId != "" ==> FindById(log, row.event.parentId).Some?
      ensures WellFormed(log + [row])
    {
      hide WellFormed;
      if row.event.parentId != "" {
        var parent :| parent in log && parent.event == FindById(log, row.event.parentId).value;
      }
      CommitKeepsWellFormed(log, row);
    }

    /** GetByExternalID on the tables. */
    method GetByExternalId(externalId: string) returns (r: Option<Event>)
      requires Valid() && externalId != ""
      ensures r == FindByExternalId(log, externalId)
    {
      for i := 0 to |events|
        invariant forall j :: 0 <= j < i ==> events[j].externalId != Some(externalId)
      {
        if events[i].externalId == Some(externalId) {
          ghost var row := log[i];
          assert row in log && events[i] == Encode(row);
          r := GetById(Db(), events[i].id, log);
          DistinctIdsAreUnique(log);
          FindUnique(log, row.event);
          SameExternalId(log, row.event, FindByExternalId(log, externalId).value);
          return;
        }
      }
      forall row | row in log ensures row.event.externalId != externalId {
        EncodedIn(Db(), log, row);
        var j :| 0 <= j < |events| && events[j] == Encode(row);
      }
      r := None;
    }

    /** create: the external id is looked up before validation and parent check. */
    method Create(request: Request, enforce: bool, id: string, now: int) returns (outcome: Outcome)
      requires Valid() && FreshId(log, id)
      modifies this
      ensures Valid()
      ensures outcome == Submit(old(log), old(next), request, enforce, id, now).0
      ensures log == Appended(old(log), Submit(old(log), old(next), request, enforce, id, now).1)
      ensures next == if outcome.Created? then old(next) + 1 else old(next)
      ensures request.externalId != "" && FindByExternalId(old(log), request.externalId).Some? ==>
                outcome == Duplicate(FindByExternalId(old(log), request.externalId))
      ensures !outcome.Duplicate? && ValidateCreateRequest(request, enforce).Err? ==>
                outcome == Rejected(ValidateCreateRequest(request, enforce).error)
      ensures !outcome.Duplicate? && !outcome.Rejected? && request.parentId != "" && FindById(old(log), request.parentId).None? ==>
                outcome == ParentNotFound
      ensures !outcome.Duplicate? && !outcome.Rejected? && !outcome.ParentNotFound? ==>
                if TextsAreClean(request, ValidateCreateRequest(request, enforce).value) then outcome.Created? else outcome == DatabaseError
      ensures outcome.Duplicate? ==> request.externalId != "" && FindByExternalId(old(log), request.externalId).Some?
      ensures outcome.Rejected? ==> ValidateCreateRequest(request, enforce).Err?
      ensures outcome.ParentNotFound? ==> request.parentId != "" && FindById(old(log), request.parentId).None?
      ensures outcome.Created? ==>
                && log == old(log) + [Row(old(next), outcome.created)]
                && outcome.created.id == id && CreatedFrom(outcome.created, request, now)
                && ValidateCreateRequest(request, enforce) == Ok((outcome.created.eventType, outcome.created.tags))
      ensures !outcome.Created? ==> log == old(log)
    {
      hide ValidateCreateRequest, Represents, Storable, TextsAreClean;
      if request.externalId != "" {
        var existing := GetByExternalId(request.externalId);
        if existing.Some? {
          return Duplicate(existing);
        }
      }
      match ValidateCreateRequest(request, enforce) {
        case Err(error) => return Rejected(error);
        case Ok((eventType, eventTags)) =>
          if request.parentId != "" {
            var parent := GetById(Db(), request.parentId, log);
            if parent.None? {
              return ParentNotFound;
            }
          }
          var event := BuildEvent(request, eventType, eventTags, now).(id := id);
          CleanTextsAreStorable(request, eventType, eventTags, now, id);
          if !Storable(event) {
            return DatabaseError;
          }
          AcceptedTypePresent(request, enforce);
          Insert(event);
          outcome := Created(event);
      }
    }

    static lemma CleanTextsAreStorable(request: Request, eventType: string, tags: Tags, now: int, id: string)
      ensures Storable(BuildEvent(request, eventType, tags, now).(id := id)) <==> TextsAreClean(request, (eventType, tags))
    {
    }

    static lemma AcceptedTypePresent(request: Request, enforce: bool)
      requires ValidateCreateRequest(request, enforce).Ok?
      ensures ValidateCreateRequest(request, enforce).value.0 != ""
    {
      hide ValidatePhaseTags, ValidateClassificationTags, Normalized;
    }

    /** A toggle appends one transition and flips the derived flag of its own pair only. */
    method Toggle(eventId: string, pair: Pair, user: UserIdentity, id: string, now: int) returns (outcome: Outcome)
      requires Valid() && FreshId(log, id) && (pair == STAR || pair == ALERT)
      modifies this
      ensures Valid()
      ensures FindById(old(log), eventId).None? ==> outcome == EventNotFound && log == old(log)
      ensures FindById(old(log), eventId).Some? && NUL !in user.name && NUL !in user.provider && NUL !in user.subject ==>
                && outcome.Created?
                && log == old(log) + [Row(old(next), outcome.created)]
                && outcome.created.id == id && TransitionBy(outcome.created, eventId, pair, user, now)
                && outcome.created.eventType == (if Active(old(log), eventId, pair) then pair.inactive else pair.active)
                && (Active(log, eventId, pair) <==> !Active(old(log), eventId, pair))
      ensures FindById(old(log), eventId).Some? && (NUL in user.name || NUL in user.provider || NUL in user.subject) ==>
                outcome == DatabaseError && log == old(log)
    {
      hide Represents, Active, DistinctIds, DistinctExternalIds, ParentsEarlier, TypesPresent, DistinctSequences, FreshId, Storable;
      var parent := GetById(Db(), eventId, log);
      if parent.None? {
        return EventNotFound;
      }
      var latest := ReadLatestTransition(Db(), eventId, pair, log);
      var eventType := if latest == Some(pair.active) then pair.inactive else pair.active;
      var event := TransitionEvent(ToggleJob(eventId, pair, user), eventType, id, now);
      TransitionIsStorable(ToggleJob(eventId, pair, user), eventType, id, now);
      TransitionContents(ToggleJob(eventId, pair, user), eventType, id, now);
      if !Storable(event) {
        return DatabaseError;
      }
      ghost var before := log;
      Insert(event);
      Toggles.AppendTransition(before, Row(next - 1, event), eventId, pair);
      outcome := Created(event);
    }

    /** CloseOperationAs without interference: closing an open operation appends
        one end event, which removes exactly that operation's row from Current. */
    method Close(eventId: string, user: UserIdentity, description: string, id: string, now: int) returns (outcome: Outcome)
      requires Valid() && FreshId(log, id)
      modifies this
      ensures Valid()
      ensures outcome.Created? || log == old(log)
      ensures user.name == "" ==> outcome == Rejected(UserNameRequired)
      ensures user.name != "" && FindById(old(log), eventId).None? ==> outcome == EventNotFound
      ensures user.name != "" && FindById(old(log), eventId).Some? && Target(old(log), eventId).None? ==> outcome == NotClosable
      ensures user.name != "" && Target(old(log), eventId).Some? && !Open(Events(old(log)), Target(old(log), eventId).value) ==>
                outcome == OperationClosed
      ensures outcome.Created? ==>
                && Target(old(log), eventId).Some?
                && log == old(log) + [Row(old(next), outcome.created)]
                && outcome.created.id == id
                && EndOf(outcome.created, digest, FindById(old(log), eventId).value, Target(old(log), eventId).value, user, description, now)
                && Ends(outcome.created, Target(old(log), eventId).value)
      ensures outcome.Created? ==> exists row ::
                && row in Current(Events(old(log)))
                && OperationOf(row) == Target(old(log), eventId)
                && Current(Events(log)) == Current(Events(old(log))) - {row}
      ensures user.name != "" && Target(old(log), eventId).Some? && Open(Events(old(log)), Target(old(log), eventId).value) ==>
                var stored := FindByExternalId(old(log), CloseId(digest, Target(old(log), eventId).value));
                && (stored.Some? ==> outcome == Duplicate(stored))
                && (stored.None? && EndIsStorable(digest, Target(old(log), eventId).value, user, description) ==> outcome.Created?)
                && (stored.None? && !EndIsStorable(digest, Target(old(log), eventId).value, user, description) ==> outcome == DatabaseError)
                && (HonestLog(digest, old(log)) && Injective(digest) ==> stored.None?)
    {
      if user.name == "" {
        return Rejected(UserNameRequired);
      }
      var start := GetById(Db(), eventId, log);
      if start.None? {
        return EventNotFound;
      }
      var identity := OperationIdentity(start);
      if identity.None? {
        return NotClosable;
      }
      var op := Operation(start.value.eventType, identity.value.0, identity.value.1);
      StartIsStored(log, next, eventId, op);
      var state := OperationState(Still(Db()), start.value, Still(log));
      if state != StateOpen {
        return OperationClosed;
      }
      ghost var before, sequence := log, next;
      var request := CloseRequest(digest, start.value, op, user, description);
      outcome := Create(request, false, id, now);
      CloseSubmits(digest, before, sequence, start.value, op, user, description, id, now);
      CloseOutcome(digest, before, sequence, start.value, op, user, description, id, now);
      if outcome.Created? {
        DistinctIdsAreUnique(before);
        EventsAppend(before, Row(sequence, outcome.created));
        ghost var row := CloseRemovesExactlyOneRow(Events(before), start.value, op, outcome.created);
      }
      OpenHasNoCloseEvent(digest, before, sequence, op);
    }

    static lemma StartIsStored(log: Log, next: nat, eventId: string, op: Operation)
      requires WellFormed(log) && (forall row :: row in log ==> StoredRow(row, next))
      requires FindById(log, eventId).Some? && Target(log, eventId) == Some(op)
      ensures Starts(FindById(log, eventId).value, op)
      ensures FindById(log, eventId).value.eventType != "" && CleanOperation(op) && Storable(FindById(log, eventId).value)
    {
      hide ParentsEarlier;
      var row :| row in log && row.event == FindById(log, eventId).value;
      IdentityStarts(row.event, op);
      assert NUL !in CHANGE_ID && NUL !in DEPLOY_ID;
    }

    /** The request built for an open operation passes validation and becomes its end. */
    static lemma CloseSubmits(digest: string -> string, log: Log, next: nat, start: Event, op: Operation, user: UserIdentity,
                              description: string, id: string, now: int)
      requires Starts(start, op) && start.eventType != "" && user.name != ""
      ensures var (outcome, row) := Submit(log, next, CloseRequest(digest, start, op, user, description), false, id, now);
        && (outcome.Created? || outcome.Duplicate? || outcome.DatabaseError?)
        && (outcome.Created? ==>
              && row == Some(Row(next, outcome.created))
              && outcome.created.id == id && EndOf(outcome.created, digest, start, op, user, description, now)
              && Ends(outcome.created, op))
        && (!outcome.Created? ==> row.None?)
        && (outcome.Duplicate? ==> FindByExternalId(log, CloseId(digest, op)).Some?)
    {
      var (outcome, row) := Submit(log, next, CloseRequest(digest, start, op, user, description), false, id, now);
      var request := CloseRequest(digest, start, op, user, description);
      CloseRequestCloses(digest, start, op, user, description);
      CloseRequestContents(digest, start, op, user, description);
      hide CloseRequest, Storable;
      UnenforcedRequest(request);
      if outcome.Created? {
        EndFromRequest(outcome.created, request, digest, start, op, user, description, now);
        CloseIsExact(start, op, outcome.created);
      }
    }

    /** The closing event is stored exactly when its texts are storable and its id is free. */
    static lemma CloseOutcome(digest: string -> string, log: Log, next: nat, start: Event, op: Operation, user: UserIdentity,
                              description: string, id: string, now: int)
      requires Starts(start, op) && start.eventType != "" && user.name != "" && Storable(start)
      ensures var (outcome, row) := Submit(log, next, CloseRequest(digest, start, op, user, description), false, id, now);
        var stored := FindByExternalId(log, CloseId(digest, op));
        && (stored.Some? ==> outcome == Duplicate(stored))
        && (stored.None? && EndIsStorable(digest, op, user, description) ==> outcome.Created?)
        && (stored.None? && !EndIsStorable(digest, op, user, description) ==> outcome == DatabaseError)
    {
      var request := CloseRequest(digest, start, op, user, description);
      assert CloseId(digest, op) != "";
      EndTexts(digest, start, op, user, description);
      hide CloseRequest, EndIsStorable, Starts, CleanTags, CleanLinks;
      var event := BuildEvent(request, request.eventType, request.tags, now).(id := id);
      assert Storable(event) <==> EndIsStorable(digest, op, user, description);
    }

    static lemma EndTexts(digest: string -> string, start: Event, op: Operation, user: UserIdentity, description: string)
      requires Starts(start, op) && Storable(start) && start.eventType != "" && user.name != ""
      ensures var r := CloseRequest(digest, start, op, user, description);
        && r.externalId == CloseId(digest, op) && r.parentId == "" && r.user == user && r.eventType == start.eventType && r.linksValid
        && CleanTags(r.tags) && CleanLinks(r.links)
        && Clean(r.eventType) && Clean(r.longDescription)
        && (Clean(r.description) <==> Clean(TrimSpace(description)))
    {
      assert Clean(PHASE) && Clean("end") && Clean(CHANGE_ID) && Clean(DEPLOY_ID) && Clean(" completed") && Clean("");
    }

    /** An honest log has no closing event for an open operation. */
    static lemma OpenHasNoCloseEvent(digest: string -> string, log: Log, next: nat, op: Operation)
      requires CleanOperation(op)
      ensures Open(Events(log), op) && HonestLog(digest, log) && Injective(digest) ==> FindByExternalId(log, CloseId(digest, op)).None?
    {
      if HonestLog(digest, log) && Injective(digest) && FindByExternalId(log, CloseId(digest, op)).Some? {
        var e := FindByExternalId(log, CloseId(digest, op)).value;
        var row :| row in log && row.event == e;
        CloseIdIsCloseText(digest, op);
        assert HonestCloseId(digest, e);
        var owner :| CleanOperation(owner) && e.externalId == CloseId(digest, owner) && Ends(e, owner);
        CloseIdInjective(digest, op, owner);
      }
    }
  }
}
