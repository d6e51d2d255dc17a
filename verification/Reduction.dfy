/** The Current query: the relational pipeline that reduces phase events to one
    active row per logical operation, and its refinement of the specification
    in Operations. */
module Reduction {
  import opened Model
  import opened Ordering
  import opened Operations
  import opened Relational
  import opened Sql
  import opened Text

  // ----- phase_event

  datatype PhaseRow = PhaseRow(id: string, eventType: string, timestamp: int, phase: string)

  predicate SameEvent(t: TagRow, e: EventRow) {
    e.id == t.eventId
  }

  predicate PhaseTag(r: (TagRow, EventRow)) {
    r.0.key == PHASE && (r.0.value == "start" || r.0.value == "end") && r.1.parentId.None?
  }

  function ToPhase(r: (TagRow, EventRow)): PhaseRow {
    PhaseRow(r.0.eventId, r.1.eventType, r.1.timestamp, r.0.value)
  }

  function PhaseEvent(db: Tables): seq<PhaseRow> {
    Project(Filter(Join(db.tags, db.events, SameEvent), PhaseTag), ToPhase)
  }

  predicate InLifecycle(e: Event) {
    HasPhase(e, "start") || HasPhase(e, "end")
  }

  function PhaseOf(e: Event): PhaseRow
    requires InLifecycle(e)
  {
    PhaseRow(e.id, e.eventType, e.timestamp, e.tags[PHASE])
  }

  ghost predicate PhaseSource(log: Log, row: Row, p: PhaseRow) {
    row in log && InLifecycle(row.event) && p == PhaseOf(row.event)
  }

  lemma JoinedTags(db: Tables, log: Log)
    requires Represents(db, log)
    ensures NoDuplicates(Join(db.tags, db.events, SameEvent))
    ensures forall t, e :: (t, e) in Join(db.tags, db.events, SameEvent) <==> t in db.tags && e in db.events && e.id == t.eventId
  {
    forall t | t in db.tags ensures AtMostOne(t, db.events, SameEvent) && AtLeastOne(t, db.events, SameEvent) {
      assert Tagged(log, t);
      var row :| row in log && row.event.id == t.eventId;
      EncodedIn(db, log, row);
      assert SameEvent(t, Encode(row));
      forall i, j | 0 <= i < j < |db.events| ensures !(SameEvent(t, db.events[i]) && SameEvent(t, db.events[j])) {
        assert db.events[i] == Encode(log[i]) && db.events[j] == Encode(log[j]);
      }
    }
    JoinKeepsRows(db.tags, db.events, SameEvent);
    var joined := Join(db.tags, db.events, SameEvent);
    forall t, e ensures (t, e) in joined <==> t in db.tags && e in db.events && e.id == t.eventId {
      if t in db.tags && e in db.events && e.id == t.eventId {
        var i :| 0 <= i < |db.tags| && db.tags[i] == t;
        SameEncodedId(db, log, joined[i].1, e);
        assert joined[i] == (t, e);
      }
    }
  }

  lemma SameEncodedId(db: Tables, log: Log, a: EventRow, b: EventRow)
    requires Represents(db, log) && a in db.events && b in db.events && a.id == b.id
    ensures a == b
  {
    var i :| 0 <= i < |db.events| && db.events[i] == a;
    var j :| 0 <= j < |db.events| && db.events[j] == b;
    assert log[i].event.id == log[j].event.id by {
      assert db.events[i] == Encode(log[i]) && db.events[j] == Encode(log[j]);
    }
    hide Represents;
    RepresentedIds(db, log);
    assert i == j;
  }

  lemma PhaseRowsOnce(db: Tables, log: Log)
    requires Represents(db, log)
    ensures NoDuplicates(PhaseEvent(db))
  {
    hide Represents;
    var joined := Join(db.tags, db.events, SameEvent);
    JoinedTags(db, log);
    FilterNoDuplicates(joined, PhaseTag);
    var kept := Filter(joined, PhaseTag);
    forall x, y | x in kept && y in kept && ToPhase(x) == ToPhase(y) ensures x == y {
      assert x == (x.0, x.1) && y == (y.0, y.1);
      assert x.0 == y.0;
      SameEncodedId(db, log, x.1, y.1);
    }
    ProjectInjective(kept, ToPhase);
  }

  lemma PhaseRowSource(db: Tables, log: Log, p: PhaseRow) returns (row: Row)
    requires Represents(db, log) && p in PhaseEvent(db)
    ensures PhaseSource(log, row, p)
  {
    hide Represents, Join, Filter, JoinOne;
    JoinedTags(db, log);
    var kept := Filter(Join(db.tags, db.events, SameEvent), PhaseTag);
    var i :| 0 <= i < |kept| && PhaseEvent(db)[i] == p;
    var (t, e) := kept[i];
    assert (t, e) in kept && kept[i] == (t, e);
    assert p == ToPhase((t, e));
    row := EncodedRow(db, log, e);
    StoredIsCanonical(db, log, row);
    TagRowsOf(db, log, row, PHASE, t.value);
    assert t == TagRow(row.event.id, PHASE, t.value);
  }

  lemma SourceHasPhaseRow(db: Tables, log: Log, row: Row, p: PhaseRow)
    requires Represents(db, log) && PhaseSource(log, row, p)
    ensures p in PhaseEvent(db)
  {
    hide Represents, Join, Filter, JoinOne;
    JoinedTags(db, log);
    var kept := Filter(Join(db.tags, db.events, SameEvent), PhaseTag);
    EncodedIn(db, log, row);
    StoredIsCanonical(db, log, row);
    TagRowsOf(db, log, row, PHASE, p.phase);
    var pair := (TagRow(row.event.id, PHASE, p.phase), Encode(row));
    assert pair in kept;
    var i :| 0 <= i < |kept| && kept[i] == pair;
    assert PhaseEvent(db)[i] == ToPhase(pair) == p;
  }

  /** phase_event holds one row for each top-level start or end. */
  lemma PhaseRows(db: Tables, log: Log)
    requires Represents(db, log)
    ensures NoDuplicates(PhaseEvent(db))
    ensures forall p :: p in PhaseEvent(db) <==> exists row :: PhaseSource(log, row, p)
  {
    hide Represents, PhaseEvent, PhaseSource;
    PhaseRowsOnce(db, log);
    forall p ensures p in PhaseEvent(db) <==> exists row :: PhaseSource(log, row, p) {
      if p in PhaseEvent(db) {
        var row := PhaseRowSource(db, log, p);
      }
      if row :| PhaseSource(log, row, p) {
        SourceHasPhaseRow(db, log, row, p);
      }
    }
  }

  // ----- correlated

  datatype CorrelatedRow = CorrelatedRow(id: string, eventType: string, timestamp: int, phase: string, key: string, value: Option<string>)

  predicate ChangeTag(p: PhaseRow, t: TagRow) {
    t.eventId == p.id && t.key == CHANGE_ID
  }

  predicate DeployTag(r: (PhaseRow, Option<TagRow>), t: TagRow) {
    t.eventId == r.0.id && t.key == DEPLOY_ID
  }

  function TagValueOf(t: Option<TagRow>): Option<string> {
    if t.Some? then Some(t.value.value) else None
  }

  function NullIfEmpty(v: Option<string>): Option<string> {
    if v == Some("") then None else v
  }

  function Coalesce(a: Option<string>, b: Option<string>): Option<string> {
    if a.Some? then a else b
  }

  function ToCorrelated(r: ((PhaseRow, Option<TagRow>), Option<TagRow>)): CorrelatedRow {
    var ((p, change), deploy) := r;
    CorrelatedRow(p.id, p.eventType, p.timestamp, p.phase,
                  if NullIfEmpty(TagValueOf(change)).Some? then CHANGE_ID else DEPLOY_ID,
                  Coalesce(NullIfEmpty(TagValueOf(change)), NullIfEmpty(TagValueOf(deploy))))
  }

  function Correlated(db: Tables): seq<CorrelatedRow> {
    Project(LeftJoin(LeftJoin(PhaseEvent(db), db.tags, ChangeTag), db.tags, DeployTag), ToCorrelated)
  }

  function CorrelatedOf(e: Event): CorrelatedRow
    requires InLifecycle(e)
  {
    CorrelatedRow(e.id, e.eventType, e.timestamp, e.tags[PHASE],
                  if Tag(e.tags, CHANGE_ID) != "" then CHANGE_ID else DEPLOY_ID,
                  if OperationOf(e).Some? then Some(OperationOf(e).value.value) else None)
  }

  ghost predicate CorrelatedSource(log: Log, row: Row, c: CorrelatedRow) {
    row in log && InLifecycle(row.event) && c == CorrelatedOf(row.event)
  }

  /** The (event_id, key) index makes every tag join match at most once. */
  lemma TagJoinsAreUnique(db: Tables, log: Log)
    requires Represents(db, log)
    ensures forall p :: AtMostOne(p, db.tags, ChangeTag)
    ensures forall r :: AtMostOne(r, db.tags, DeployTag)
  {
  }

  /** A joined tag row carries the event's own value for the key, and no row means no such tag. */
  lemma JoinedTagValue(db: Tables, log: Log, row: Row, key: string, joined: Option<TagRow>)
    requires Represents(db, log) && row in log
    requires joined.Some? ==> joined.value in db.tags && joined.value.eventId == row.event.id && joined.value.key == key
    requires joined.None? ==> forall t :: t in db.tags ==> !(t.eventId == row.event.id && t.key == key)
    ensures TagValueOf(joined) == if key in row.event.tags then Some(row.event.tags[key]) else None
  {
    if joined.Some? {
      TagRowsOf(db, log, row, key, joined.value.value);
      assert joined.value == TagRow(row.event.id, key, joined.value.value);
    } else if key in row.event.tags {
      TagRowsOf(db, log, row, key, row.event.tags[key]);
    }
  }

  lemma CorrelatedRowOf(db: Tables, log: Log, row: Row, p: PhaseRow, change: Option<TagRow>, deploy: Option<TagRow>)
    requires Represents(db, log) && PhaseSource(log, row, p)
    requires change.Some? ==> change.value in db.tags && ChangeTag(p, change.value)
    requires change.None? ==> forall t :: t in db.tags ==> !ChangeTag(p, t)
    requires deploy.Some? ==> deploy.value in db.tags && DeployTag((p, change), deploy.value)
    requires deploy.None? ==> forall t :: t in db.tags ==> !DeployTag((p, change), t)
    ensures ToCorrelated(((p, change), deploy)) == CorrelatedOf(row.event)
  {
    hide Represents;
    forall t | t in db.tags ensures change.None? ==> !(t.eventId == row.event.id && t.key == CHANGE_ID) {
      assert change.None? ==> !ChangeTag(p, t);
    }
    forall t | t in db.tags ensures deploy.None? ==> !(t.eventId == row.event.id && t.key == DEPLOY_ID) {
      assert deploy.None? ==> !DeployTag((p, change), t);
    }
    JoinedTagValue(db, log, row, CHANGE_ID, change);
    JoinedTagValue(db, log, row, DEPLOY_ID, deploy);
  }

  /** correlated is row for row phase_event: neither tag join multiplies or drops rows. */
  lemma CorrelatedAligned(db: Tables, log: Log)
    requires Represents(db, log)
    ensures |Correlated(db)| == |PhaseEvent(db)|
    ensures forall i, row :: 0 <= i < |PhaseEvent(db)| && PhaseSource(log, row, PhaseEvent(db)[i]) ==> Correlated(db)[i] == CorrelatedOf(row.event)
  {
    hide Represents, PhaseEvent, LeftJoin, ToCorrelated, CorrelatedOf, ChangeTag, DeployTag;
    var phases := PhaseEvent(db);
    var withChange := LeftJoin(phases, db.tags, ChangeTag);
    TagJoinsAreUnique(db, log);
    LeftJoinKeepsRows(phases, db.tags, ChangeTag);
    LeftJoinKeepsRows(withChange, db.tags, DeployTag);
    var withDeploy := LeftJoin(withChange, db.tags, DeployTag);
    forall i, row | 0 <= i < |phases| && PhaseSource(log, row, phases[i])
      ensures Correlated(db)[i] == CorrelatedOf(row.event)
    {
      var change, deploy := withChange[i].1, withDeploy[i].1;
      assert withChange[i] == (phases[i], change);
      assert withDeploy[i] == ((phases[i], change), deploy);
      CorrelatedRowOf(db, log, row, phases[i], change, deploy);
    }
  }

  lemma CorrelatedRows(db: Tables, log: Log)
    requires Represents(db, log)
    ensures NoDuplicates(Correlated(db))
    ensures forall c :: c in Correlated(db) <==> exists row :: CorrelatedSource(log, row, c)
  {
    hide Represents, PhaseEvent, Correlated, DistinctIds;
    RepresentedIds(db, log);
    var phases, rows := PhaseEvent(db), Correlated(db);
    PhaseRows(db, log);
    CorrelatedAligned(db, log);
    forall i, j | 0 <= i < j < |rows| ensures rows[i] != rows[j] {
      assert phases[i] in phases && phases[j] in phases;
      var a :| PhaseSource(log, a, phases[i]);
      var b :| PhaseSource(log, b, phases[j]);
      if a.event.id == b.event.id {
        SameIdSameRow(log, a, b);
      }
    }
    forall c ensures c in rows <==> exists row :: CorrelatedSource(log, row, c) {
      if c in rows {
        var i :| 0 <= i < |rows| && rows[i] == c;
        assert phases[i] in phases;
        var row :| PhaseSource(log, row, phases[i]);
        assert CorrelatedSource(log, row, c);
      }
      if row :| CorrelatedSource(log, row, c) {
        var p := PhaseOf(row.event);
        assert PhaseSource(log, row, p);
        assert p in phases;
        var i :| 0 <= i < |phases| && phases[i] == p;
        assert rows[i] == c;
      }
    }
  }

  /** Go and SQL agree on identity: the correlation computed for a stored
      top-level start is what operationIdentity returns for it. */
  lemma IdentityAgrees(db: Tables, log: Log, row: Row, c: CorrelatedRow)
    requires Represents(db, log) && row in log
    requires c in Correlated(db) && c.id == row.event.id && c.phase == "start"
    ensures OperationIdentity(Some(row.event)) == if c.value.Some? then Some((c.key, c.value.value)) else None
  {
    hide Represents, Correlated, DistinctIds;
    CorrelatedRows(db, log);
    RepresentedIds(db, log);
    var source :| CorrelatedSource(log, source, c);
    SameIdSameRow(log, source, row);
  }

  // ----- ended

  predicate EndRow(c: CorrelatedRow) {
    c.phase == "end" && c.value.Some?
  }

  function ToOperation(c: CorrelatedRow): Operation {
    Operation(c.eventType, c.key, if c.value.Some? then c.value.value else "")
  }

  function EndedRows(db: Tables): seq<Operation> {
    Distinct(Project(Filter(Correlated(db), EndRow), ToOperation))
  }

  lemma EndRowSource(row: Row, c: CorrelatedRow, log: Log)
    requires CorrelatedSource(log, row, c)
    ensures EndRow(c) <==> Ends(row.event, ToOperation(c)) && HasPhase(row.event, "end")
  {
  }

  lemma EndSource(log: Log, row: Row, op: Operation)
    requires row in log && Ends(row.event, op)
    ensures CorrelatedSource(log, row, CorrelatedOf(row.event))
    ensures EndRow(CorrelatedOf(row.event)) && ToOperation(CorrelatedOf(row.event)) == op
  {
  }

  lemma EndedOperations(db: Tables, log: Log)
    requires Represents(db, log)
    ensures NoDuplicates(EndedRows(db))
    ensures forall op :: op in EndedRows(db) <==> Ended(Events(log), op)
  {
    hide Represents, Correlated, CorrelatedSource, EndRow, ToOperation, Ends, Filter, Distinct;
    CorrelatedRows(db, log);
    var ends := Filter(Correlated(db), EndRow);
    var ops := Project(ends, ToOperation);
    DistinctRows(ops);
    forall op ensures op in ops <==> Ended(Events(log), op) {
      if op in ops {
        var i :| 0 <= i < |ops| && ops[i] == op;
        assert ends[i] in ends && EndRow(ends[i]);
        var row :| CorrelatedSource(log, row, ends[i]);
        EndRowSource(row, ends[i], log);
        SourceIsStored(log, row, ends[i]);
      }
      if Ended(Events(log), op) {
        var e :| e in Events(log) && Ends(e, op);
        var row :| row in log && row.event == e;
        EndSource(log, row, op);
        var c := CorrelatedOf(e);
        assert c in ends;
        var i :| 0 <= i < |ends| && ends[i] == c;
        assert ops[i] == op;
      }
    }
  }

  lemma SourceIsStored(log: Log, row: Row, c: CorrelatedRow)
    requires CorrelatedSource(log, row, c)
    ensures row.event in Events(log)
  {
  }

  // ----- active

  predicate SameOperation(c: CorrelatedRow, op: Operation) {
    op.eventType == c.eventType && op.key == c.key && c.value == Some(op.value)
  }

  predicate StartWithoutEnd(r: (CorrelatedRow, Option<Operation>)) {
    r.0.phase == "start" && r.0.value.Some? && r.1.None?
  }

  function FirstOf(r: (CorrelatedRow, Option<Operation>)): CorrelatedRow {
    r.0
  }

  /** The starts left by the anti-join, before ranking. */
  function Candidates(db: Tables): seq<CorrelatedRow> {
    Project(Filter(LeftJoin(Correlated(db), EndedRows(db), SameOperation), StartWithoutEnd), FirstOf)
  }

  ghost predicate CandidateEvent(log: Log, e: Event) {
    && HasPhase(e, "start")
    && OperationOf(e).Some?
    && !Ended(Events(log), OperationOf(e).value)
  }

  ghost predicate CandidateSource(log: Log, row: Row, c: CorrelatedRow) {
    row in log && CandidateEvent(log, row.event) && c == CorrelatedOf(row.event)
  }

  lemma AntiJoin(db: Tables, log: Log)
    requires Represents(db, log)
    ensures var joined := LeftJoin(Correlated(db), EndedRows(db), SameOperation);
      && |joined| == |Correlated(db)|
      && (forall i :: 0 <= i < |joined| ==>
            joined[i].0 == Correlated(db)[i] && (joined[i].1.None? <==> !exists op :: SameOperation(joined[i].0, op) && Ended(Events(log), op)))
      && NoDuplicates(joined)
  {
    EndedOperations(db, log);
    CorrelatedRows(db, log);
    var rows, ended := Correlated(db), EndedRows(db);
    forall c | c in rows ensures AtMostOne(c, ended, SameOperation) {
    }
    LeftJoinKeepsRows(rows, ended, SameOperation);
  }

  lemma CandidateHasSource(db: Tables, log: Log, k: nat) returns (row: Row)
    requires Represents(db, log) && k < |Candidates(db)|
    ensures CandidateSource(log, row, Candidates(db)[k])
  {
    hide Represents, Correlated, EndedRows, Ended;
    AntiJoin(db, log);
    CorrelatedRows(db, log);
    var joined := LeftJoin(Correlated(db), EndedRows(db), SameOperation);
    var kept := Filter(joined, StartWithoutEnd);
    var c := Candidates(db)[k];
    assert kept[k] in kept && c == kept[k].0;
    var i :| 0 <= i < |joined| && joined[i] == kept[k];
    assert Correlated(db)[i] in Correlated(db);
    row :| CorrelatedSource(log, row, c);
    assert SameOperation(c, OperationOf(row.event).value);
  }

  /** A start of an operation that has not ended survives the anti-join. */
  lemma StartSurvives(log: Log, e: Event, joined: (CorrelatedRow, Option<Operation>))
    requires CandidateEvent(log, e) && joined.0 == CorrelatedOf(e)
    requires joined.1.None? <==> !exists op :: SameOperation(joined.0, op) && Ended(Events(log), op)
    ensures StartWithoutEnd(joined)
  {
    hide Ended;
    forall op | SameOperation(joined.0, op) ensures op == OperationOf(e).value {
    }
  }

  lemma SourceIsCandidate(db: Tables, log: Log, row: Row)
    requires Represents(db, log) && row in log && CandidateEvent(log, row.event)
    ensures CorrelatedOf(row.event) in Candidates(db)
  {
    hide Represents, Correlated, EndedRows, Ended, LeftJoin, Filter, CorrelatedOf, SameOperation, StartWithoutEnd;
    AntiJoin(db, log);
    CorrelatedRows(db, log);
    var joined := LeftJoin(Correlated(db), EndedRows(db), SameOperation);
    var kept := Filter(joined, StartWithoutEnd);
    var c := CorrelatedOf(row.event);
    assert CorrelatedSource(log, row, c);
    assert c in Correlated(db);
    var i :| 0 <= i < |Correlated(db)| && Correlated(db)[i] == c;
    StartSurvives(log, row.event, joined[i]);
    assert joined[i] in kept;
    var k :| 0 <= k < |kept| && kept[k] == joined[i];
    assert Candidates(db)[k] == c;
  }

  lemma CandidatesDistinct(db: Tables, log: Log)
    requires Represents(db, log)
    ensures NoDuplicates(Candidates(db))
  {
    hide Represents, Correlated, EndedRows, Ended;
    AntiJoin(db, log);
    var joined := LeftJoin(Correlated(db), EndedRows(db), SameOperation);
    FilterNoDuplicates(joined, StartWithoutEnd);
    ProjectInjective(Filter(joined, StartWithoutEnd), FirstOf);
  }

  lemma CandidateRows(db: Tables, log: Log)
    requires Represents(db, log)
    ensures NoDuplicates(Candidates(db))
    ensures forall c :: c in Candidates(db) <==> exists row :: CandidateSource(log, row, c)
  {
    hide Represents, Candidates, Ended;
    CandidatesDistinct(db, log);
    forall c ensures c in Candidates(db) <==> exists row :: CandidateSource(log, row, c) {
      if c in Candidates(db) {
        var k :| 0 <= k < |Candidates(db)| && Candidates(db)[k] == c;
        var row := CandidateHasSource(db, log, k);
      }
      if row :| CandidateSource(log, row, c) {
        SourceIsCandidate(db, log, row);
      }
    }
  }

  predicate EarlierInPartition(c: CorrelatedRow, other: CorrelatedRow) {
    && other.eventType == c.eventType && other.key == c.key && other.value == c.value
    && (other.timestamp < c.timestamp || (other.timestamp == c.timestamp && Less(other.id, c.id)))
  }

  /** ROW_NUMBER over a partition ordered by (timestamp, id); the ids of the
      rows differ, so the order has no ties. */
  function RowNumber(rows: seq<CorrelatedRow>, c: CorrelatedRow): nat {
    |Filter(rows, other => EarlierInPartition(c, other))| + 1
  }

  datatype ActiveRow = ActiveRow(id: string, timestamp: int, key: string, value: string, rank: nat)

  function ActiveRows(db: Tables): seq<ActiveRow> {
    var rows := Candidates(db);
    Project(rows, (c: CorrelatedRow) => ActiveRow(c.id, c.timestamp, c.key, if c.value.Some? then c.value.value else "", RowNumber(rows, c)))
  }

  /** Rank 1 is the least start of its operation. */
  lemma RankOne(db: Tables, log: Log, row: Row)
    requires Represents(db, log) && row in log && CandidateEvent(log, row.event)
    ensures RowNumber(Candidates(db), CorrelatedOf(row.event)) == 1 <==> Representative(Events(log), row.event)
  {
    hide Represents, Candidates, DistinctIds;
    RepresentedIds(db, log);
    CandidateRows(db, log);
    var e, op := row.event, OperationOf(row.event).value;
    var c := CorrelatedOf(e);
    var earlier := Filter(Candidates(db), other => EarlierInPartition(c, other));
    DistinctIdsAreUnique(log);
    EventOrders(Events(log));
    if earlier == [] {
      forall other | other in Events(log) && Starts(other, op) && other != e ensures OldestFirst(e, other) {
        var r :| r in log && r.event == other;
        assert CandidateSource(log, r, CorrelatedOf(other));
        assert CorrelatedOf(other) in Candidates(db);
        assert !EarlierInPartition(c, CorrelatedOf(other));
        assert e.id != other.id;
      }
    } else {
      assert earlier[0] in earlier;
      var r :| CandidateSource(log, r, earlier[0]);
      assert Starts(r.event, op);
      assert OldestFirst(r.event, e);
      assert OldestFirst(e, r.event) ==> OldestFirst(e, e);
    }
  }

  // ----- FROM active JOIN change_events LEFT JOIN team, scope, severity

  datatype CurrentRow = CurrentRow(active: ActiveRow, event: EventRow, team: Option<string>, scope: Option<string>, severity: Option<string>)

  predicate ActiveEvent(a: ActiveRow, e: EventRow) {
    e.id == a.id
  }

  predicate TeamTag(r: (ActiveRow, EventRow), t: TagRow) {
    t.eventId == r.0.id && t.key == "team"
  }

  predicate ScopeTag(r: ((ActiveRow, EventRow), Option<TagRow>), t: TagRow) {
    t.eventId == r.0.0.id && t.key == "scope"
  }

  predicate SeverityTag(r: (((ActiveRow, EventRow), Option<TagRow>), Option<TagRow>), t: TagRow) {
    t.eventId == r.0.0.0.id && t.key == "severity"
  }

  function ToCurrent(r: ((((ActiveRow, EventRow), Option<TagRow>), Option<TagRow>), Option<TagRow>)): CurrentRow {
    var ((((active, event), team), scope), severity) := r;
    CurrentRow(active, event, TagValueOf(team), TagValueOf(scope), TagValueOf(severity))
  }

  function CurrentFrom(db: Tables): seq<CurrentRow> {
    Project(LeftJoin(LeftJoin(LeftJoin(Join(ActiveRows(db), db.events, ActiveEvent), db.tags, TeamTag), db.tags, ScopeTag), db.tags, SeverityTag), ToCurrent)
  }

  function OptionalTag(tags: Tags, key: string): Option<string> {
    if key in tags then Some(tags[key]) else None
  }

  /** The joined row of a candidate start: its own event and its own tags. */
  ghost predicate CurrentSource(db: Tables, log: Log, row: Row, r: CurrentRow) {
    && row in log
    && CandidateEvent(log, row.event)
    && r.active == ActiveRow(row.event.id, row.event.timestamp, OperationOf(row.event).value.key, OperationOf(row.event).value.value,
                             RowNumber(Candidates(db), CorrelatedOf(row.event)))
    && r.event == Encode(row)
    && r.team == OptionalTag(row.event.tags, "team")
    && r.scope == OptionalTag(row.event.tags, "scope")
    && r.severity == OptionalTag(row.event.tags, "severity")
  }

  lemma ActiveSources(db: Tables, log: Log)
    requires Represents(db, log)
    ensures |ActiveRows(db)| == |Candidates(db)|
    ensures forall i :: 0 <= i < |ActiveRows(db)| ==> exists row :: CandidateSource(log, row, Candidates(db)[i]) && ActiveRows(db)[i].id == row.event.id
  {
    CandidateRows(db, log);
    forall i | 0 <= i < |ActiveRows(db)|
      ensures exists row :: CandidateSource(log, row, Candidates(db)[i]) && ActiveRows(db)[i].id == row.event.id
    {
      assert Candidates(db)[i] in Candidates(db);
      var row :| CandidateSource(log, row, Candidates(db)[i]);
    }
  }

  /** An active row joins exactly one event row. */
  lemma ActiveJoinsOnce(db: Tables, log: Log, row: Row, a: ActiveRow)
    requires Represents(db, log) && row in log && a.id == row.event.id
    ensures AtMostOne(a, db.events, ActiveEvent) && AtLeastOne(a, db.events, ActiveEvent)
  {
    EncodedIn(db, log, row);
    assert ActiveEvent(a, Encode(row));
    forall i, j | 0 <= i < j < |db.events| ensures !(ActiveEvent(a, db.events[i]) && ActiveEvent(a, db.events[j])) {
      assert db.events[i] == Encode(log[i]) && db.events[j] == Encode(log[j]);
    }
  }

  lemma TagsJoinOnce(db: Tables, log: Log)
    requires Represents(db, log)
    ensures forall r :: AtMostOne(r, db.tags, TeamTag)
    ensures forall r :: AtMostOne(r, db.tags, ScopeTag)
    ensures forall r :: AtMostOne(r, db.tags, SeverityTag)
  {
  }

  lemma JoinsAreUnique(db: Tables, log: Log)
    requires Represents(db, log)
    ensures forall a :: a in ActiveRows(db) ==> AtMostOne(a, db.events, ActiveEvent) && AtLeastOne(a, db.events, ActiveEvent)
    ensures forall r :: AtMostOne(r, db.tags, TeamTag)
    ensures forall r :: AtMostOne(r, db.tags, ScopeTag)
    ensures forall r :: AtMostOne(r, db.tags, SeverityTag)
  {
    hide Represents, ActiveRows, Candidates, AtMostOne, AtLeastOne, Ended;
    ActiveSources(db, log);
    TagsJoinOnce(db, log);
    forall a | a in ActiveRows(db) ensures AtMostOne(a, db.events, ActiveEvent) && AtLeastOne(a, db.events, ActiveEvent) {
      var i :| 0 <= i < |ActiveRows(db)| && ActiveRows(db)[i] == a;
      var row :| CandidateSource(log, row, Candidates(db)[i]) && a.id == row.event.id;
      ActiveJoinsOnce(db, log, row, a);
    }
  }

  lemma CurrentRowOf(db: Tables, log: Log, row: Row, a: ActiveRow, event: EventRow,
                     team: Option<TagRow>, scope: Option<TagRow>, severity: Option<TagRow>)
    requires Represents(db, log) && row in log && a.id == row.event.id && event in db.events && event.id == a.id
    requires team.Some? ==> team.value in db.tags && TeamTag((a, event), team.value)
    requires team.None? ==> forall t :: t in db.tags ==> !TeamTag((a, event), t)
    requires scope.Some? ==> scope.value in db.tags && ScopeTag(((a, event), team), scope.value)
    requires scope.None? ==> forall t :: t in db.tags ==> !ScopeTag(((a, event), team), t)
    requires severity.Some? ==> severity.value in db.tags && SeverityTag((((a, event), team), scope), severity.value)
    requires severity.None? ==> forall t :: t in db.tags ==> !SeverityTag((((a, event), team), scope), t)
    ensures ToCurrent(((((a, event), team), scope), severity)) ==
            CurrentRow(a, Encode(row), OptionalTag(row.event.tags, "team"), OptionalTag(row.event.tags, "scope"),
                       OptionalTag(row.event.tags, "severity"))
  {
    hide Represents;
    EncodedIn(db, log, row);
    SameEncodedId(db, log, event, Encode(row));
    forall t | t in db.tags
      ensures team.None? ==> !(t.eventId == row.event.id && t.key == "team")
      ensures scope.None? ==> !(t.eventId == row.event.id && t.key == "scope")
      ensures severity.None? ==> !(t.eventId == row.event.id && t.key == "severity")
    {
      assert team.None? ==> !TeamTag((a, event), t);
      assert scope.None? ==> !ScopeTag(((a, event), team), t);
      assert severity.None? ==> !SeverityTag((((a, event), team), scope), t);
    }
    JoinedTagValue(db, log, row, "team", team);
    JoinedTagValue(db, log, row, "scope", scope);
    JoinedTagValue(db, log, row, "severity", severity);
  }

  /** The final joins keep active row for row and attach each row's own event and tags. */
  lemma CurrentAligned(db: Tables, log: Log)
    requires Represents(db, log)
    ensures |CurrentFrom(db)| == |Candidates(db)|
    ensures forall i, row :: 0 <= i < |Candidates(db)| && CandidateSource(log, row, Candidates(db)[i]) ==> CurrentSource(db, log, row, CurrentFrom(db)[i])
  {
    hide Represents, Candidates, RowNumber, Ended, Join, LeftJoin, ToCurrent, TeamTag, ScopeTag, SeverityTag;
    var active := ActiveRows(db);
    JoinsAreUnique(db, log);
    JoinKeepsRows(active, db.events, ActiveEvent);
    var withEvent := Join(active, db.events, ActiveEvent);
    LeftJoinKeepsRows(withEvent, db.tags, TeamTag);
    var withTeam := LeftJoin(withEvent, db.tags, TeamTag);
    LeftJoinKeepsRows(withTeam, db.tags, ScopeTag);
    var withScope := LeftJoin(withTeam, db.tags, ScopeTag);
    LeftJoinKeepsRows(withScope, db.tags, SeverityTag);
    var withSeverity := LeftJoin(withScope, db.tags, SeverityTag);
    forall i, row | 0 <= i < |active| && CandidateSource(log, row, Candidates(db)[i])
      ensures CurrentSource(db, log, row, CurrentFrom(db)[i])
    {
      var event, team, scope, severity := withEvent[i].1, withTeam[i].1, withScope[i].1, withSeverity[i].1;
      assert withEvent[i] == (active[i], event);
      assert withTeam[i] == ((active[i], event), team);
      assert withScope[i] == (((active[i], event), team), scope);
      assert withSeverity[i] == ((((active[i], event), team), scope), severity);
      CurrentRowOf(db, log, row, active[i], event, team, scope, severity);
    }
  }

  lemma CurrentRows(db: Tables, log: Log)
    requires Represents(db, log)
    ensures forall i, j :: 0 <= i < j < |CurrentFrom(db)| ==> CurrentFrom(db)[i].event.id != CurrentFrom(db)[j].event.id
    ensures forall r :: r in CurrentFrom(db) ==> exists row :: CurrentSource(db, log, row, r)
    ensures forall row :: row in log && CandidateEvent(log, row.event) ==> exists r :: r in CurrentFrom(db) && CurrentSource(db, log, row, r)
  {
    hide Represents, Candidates, CurrentFrom, RowNumber, DistinctIds, Ended;
    RepresentedIds(db, log);
    CandidateRows(db, log);
    CurrentAligned(db, log);
    var candidates, rows := Candidates(db), CurrentFrom(db);
    forall i, j | 0 <= i < j < |rows| ensures rows[i].event.id != rows[j].event.id {
      assert candidates[i] in candidates && candidates[j] in candidates;
      var a :| CandidateSource(log, a, candidates[i]);
      var b :| CandidateSource(log, b, candidates[j]);
      assert CurrentSource(db, log, a, rows[i]) && CurrentSource(db, log, b, rows[j]);
      if a.event.id == b.event.id {
        SameIdSameRow(log, a, b);
      }
    }
    forall r | r in rows ensures exists row :: CurrentSource(db, log, row, r) {
      var i :| 0 <= i < |rows| && rows[i] == r;
      assert candidates[i] in candidates;
      var row :| CandidateSource(log, row, candidates[i]);
      assert CurrentSource(db, log, row, r);
    }
    forall row | row in log && CandidateEvent(log, row.event) ensures exists r :: r in rows && CurrentSource(db, log, row, r) {
      var c := CorrelatedOf(row.event);
      assert CandidateSource(log, row, c);
      assert c in candidates;
      var i :| 0 <= i < |candidates| && candidates[i] == c;
      assert CurrentSource(db, log, row, rows[i]);
      assert rows[i] in rows;
    }
  }
}
