/** The readers of derived annotations: the reverse walk with early exit, its
    batched variant, the alert filter, and the forward fold they all agree with. */
module AnnotationReaders {
  import opened Model
  import opened Ordering
  import opened Relational
  import opened Sql
  import opened Where

  predicate IsAnnotation(row: EventRow) {
    row.eventType == "star" || row.eventType == "unstar" || row.eventType == "alert" || row.eventType == "clear-alert"
  }

  /** ORDER BY ingest_sequence DESC. */
  predicate LaterFirst(a: Row, b: Row) {
    a.sequence > b.sequence
  }

  /** ORDER BY ingest_sequence ASC. */
  predicate EarlierFirst(a: Row, b: Row) {
    a.sequence < b.sequence
  }

  lemma SequenceOrders(log: Log)
    requires DistinctSequences(log)
    ensures StrictOrder(LaterFirst) && Comparable(Elements(log), LaterFirst)
    ensures StrictOrder(EarlierFirst) && Comparable(Elements(log), EarlierFirst)
    ensures NoDuplicates(log)
  {
    forall a, b | a in Elements(log) && b in Elements(log) && a != b ensures a.sequence != b.sequence {
      var i :| 0 <= i < |log| && log[i] == a;
      var j :| 0 <= j < |log| && log[j] == b;
      assert i < j || j < i;
    }
  }

  /** The rows a reader scans: the wanted log rows in the given order, each once. */
  lemma ScannedRows(log: Log, keep: Row -> bool, before: (Row, Row) -> bool)
    requires DistinctSequences(log) && (before == LaterFirst || before == EarlierFirst)
    ensures Ascending(Sort(Filter(log, keep), before), before)
  {
    SequenceOrders(log);
    FilterNoDuplicates(log, keep);
    SortLists(Filter(log, keep), before);
  }

  // ----- The transition that decides a flag

  /** The first transition of the pair in scan order: whether it activates. */
  function First(rows: seq<Row>, parent: string, pair: Pair): Option<bool> {
    if rows == [] then None
    else if Transition(rows[0].event, parent, pair) then Some(rows[0].event.eventType == pair.active)
    else First(rows[1..], parent, pair)
  }

  lemma {:induction false} FirstExtends(rows: seq<Row>, more: seq<Row>, parent: string, pair: Pair)
    ensures First(rows + more, parent, pair) == if First(rows, parent, pair).Some? then First(rows, parent, pair) else First(more, parent, pair)
  {
    if rows == [] {
      assert rows + more == more;
    } else {
      assert (rows + more)[1..] == rows[1..] + more;
      FirstExtends(rows[1..], more, parent, pair);
    }
  }

  lemma FirstStep(rows: seq<Row>, i: nat, parent: string, pair: Pair)
    requires i < |rows|
    ensures First(rows[..i + 1], parent, pair)
         == if First(rows[..i], parent, pair).Some? then First(rows[..i], parent, pair)
            else if Transition(rows[i].event, parent, pair) then Some(rows[i].event.eventType == pair.active)
            else None
  {
    assert rows[..i + 1] == rows[..i] + [rows[i]];
    FirstExtends(rows[..i], [rows[i]], parent, pair);
  }

  /** A scan of the log, latest first, that misses no transition of the pair. */
  ghost predicate Scans(rows: seq<Row>, log: Log, parent: string, pair: Pair) {
    && Ascending(rows, LaterFirst)
    && (forall r :: r in rows ==> r in log)
    && (forall r :: r in log && Transition(r.event, parent, pair) ==> r in rows)
  }

  lemma {:induction false} FirstIsLatest(rows: seq<Row>, parent: string, pair: Pair) returns (k: nat)
    requires First(rows, parent, pair).Some?
    ensures k < |rows| && Transition(rows[k].event, parent, pair)
    ensures First(rows, parent, pair) == Some(rows[k].event.eventType == pair.active)
    ensures forall j :: 0 <= j < k ==> !Transition(rows[j].event, parent, pair)
  {
    if Transition(rows[0].event, parent, pair) {
      k := 0;
    } else {
      k := FirstIsLatest(rows[1..], parent, pair);
      forall j | 0 <= j < k + 1 ensures !Transition(rows[j].event, parent, pair) {
        assert j > 0 ==> rows[j] == rows[1..][j - 1];
      }
      k := k + 1;
    }
  }

  lemma {:induction false} FirstMissing(rows: seq<Row>, parent: string, pair: Pair)
    requires First(rows, parent, pair).None?
    ensures forall r :: r in rows ==> !Transition(r.event, parent, pair)
  {
    if rows != [] {
      FirstMissing(rows[1..], parent, pair);
      forall r | r in rows ensures !Transition(r.event, parent, pair) {
        assert r == rows[0] || r in rows[1..];
      }
    }
  }

  /** The first transition met by a latest-first scan decides the derived flag. */
  lemma FirstDecides(rows: seq<Row>, log: Log, parent: string, pair: Pair)
    requires DistinctSequences(log) && Scans(rows, log, parent, pair) && pair.active != pair.inactive
    ensures First(rows, parent, pair) == Some(true) <==> Active(log, parent, pair)
  {
    if First(rows, parent, pair).Some? {
      var k := FirstIsLatest(rows, parent, pair);
      var latest := rows[k];
      forall r | r in log && Transition(r.event, parent, pair) ensures r.sequence <= latest.sequence {
        var j :| 0 <= j < |rows| && rows[j] == r;
        assert j >= k;
      }
      SequenceOrders(log);
      if Active(log, parent, pair) {
        var row :| row in log && Transition(row.event, parent, pair) && row.event.eventType == pair.active
          && forall newer :: newer in log && Transition(newer.event, parent, pair) ==> newer.sequence <= row.sequence;
        assert row.sequence == latest.sequence;
        assert row in Elements(log) && latest in Elements(log);
        assert row == latest;
      }
    } else {
      FirstMissing(rows, parent, pair);
    }
  }

  /** toggleTransition's own query: the type of the latest transition of the pair
      (ORDER BY ingest_sequence DESC LIMIT 1). */
  function LatestTransition(log: Log, parent: string, pair: Pair): (latest: Option<string>)
    ensures latest.Some? ==> latest.value == pair.active || latest.value == pair.inactive
    ensures latest.None? ==> forall row :: row in log ==> !Transition(row.event, parent, pair)
  {
    var rows := Sort(Filter(log, (row: Row) => Transition(row.event, parent, pair)), LaterFirst);
    var page := Page(rows, 1, 0);
    if page == [] then None else
      assert page[0] in rows;
      Some(page[0].event.eventType)
  }

  /** It is the active type exactly when the flag is set. */
  lemma LatestDecides(log: Log, parent: string, pair: Pair)
    requires DistinctSequences(log) && pair.active != pair.inactive
    ensures LatestTransition(log, parent, pair) == Some(pair.active) <==> Active(log, parent, pair)
  {
    hide Active;
    var keep := (row: Row) => Transition(row.event, parent, pair);
    var rows := Sort(Filter(log, keep), LaterFirst);
    ScannedRows(log, keep, LaterFirst);
    FirstDecides(rows, log, parent, pair);
    if rows != [] {
      assert rows[0] in rows;
    }
  }

  // ----- Readers

  /** The columns a reader selects: everything but the tags. */
  function Bare(row: EventRow): Row {
    Row(row.sequence, Decode(row, map[]))
  }

  lemma ActiveIgnoresTags(log: Log, bare: Log, parent: string, pair: Pair)
    requires |bare| == |log|
    requires forall i :: 0 <= i < |log| ==>
      bare[i].sequence == log[i].sequence && bare[i].event.parentId == log[i].event.parentId && bare[i].event.eventType == log[i].event.eventType
    requires Active(log, parent, pair)
    ensures Active(bare, parent, pair)
  {
    var row :| row in log && Transition(row.event, parent, pair) && row.event.eventType == pair.active
      && forall newer :: newer in log && Transition(newer.event, parent, pair) ==> newer.sequence <= row.sequence;
    var i :| 0 <= i < |log| && log[i] == row;
    forall newer | newer in bare && Transition(newer.event, parent, pair) ensures newer.sequence <= bare[i].sequence {
      var j :| 0 <= j < |bare| && bare[j] == newer;
      assert log[j] in log;
    }
    assert bare[i] in bare;
  }

  lemma BareLog(db: Tables, log: Log)
    requires Represents(db, log) && DistinctSequences(log)
    ensures DistinctSequences(Project(db.events, Bare))
    ensures forall parent, pair :: Active(Project(db.events, Bare), parent, pair) <==> Active(log, parent, pair)
  {
    var bare := Project(db.events, Bare);
    forall i | 0 <= i < |log|
      ensures bare[i].sequence == log[i].sequence && bare[i].event.parentId == log[i].event.parentId && bare[i].event.eventType == log[i].event.eventType
    {
      DecodeEncode(log[i]);
    }
    hide Active, Represents;
    forall parent, pair ensures Active(bare, parent, pair) <==> Active(log, parent, pair) {
      if Active(log, parent, pair) {
        ActiveIgnoresTags(log, bare, parent, pair);
      }
      if Active(bare, parent, pair) {
        ActiveIgnoresTags(bare, log, parent, pair);
      }
    }
  }

  /** The rows a reader scans: those its WHERE clause keeps, ORDER BY ingest_sequence DESC. */
  function Scan(db: Tables, keep: EventRow -> bool): seq<Row> {
    Sort(Project(Filter(db.events, keep), Bare), LaterFirst)
  }

  lemma EventRowsDiffer(db: Tables, log: Log)
    requires Represents(db, log) && DistinctSequences(log)
    ensures forall i, j :: 0 <= i < j < |db.events| ==> db.events[i].sequence != db.events[j].sequence
    ensures forall er :: er in db.events ==> er.parentId != Some("")
  {
    forall i, j | 0 <= i < j < |db.events| ensures db.events[i].sequence != db.events[j].sequence {
      assert db.events[i] == Encode(log[i]) && db.events[j] == Encode(log[j]);
    }
  }

  lemma ScannedOnce(db: Tables, log: Log, keep: EventRow -> bool)
    requires Represents(db, log) && DistinctSequences(log)
    ensures Ascending(Scan(db, keep), LaterFirst)
    ensures forall r :: r in Scan(db, keep) <==> exists er :: er in db.events && keep(er) && r == Bare(er)
  {
    hide Represents, DistinctSequences;
    EventRowsDiffer(db, log);
    FilterNoDuplicates(db.events, keep);
    var kept := Filter(db.events, keep);
    forall x, y | x in kept && y in kept && x.sequence == y.sequence ensures x == y {
      var i :| 0 <= i < |db.events| && db.events[i] == x;
      var j :| 0 <= j < |db.events| && db.events[j] == y;
      assert !(i < j) && !(j < i);
    }
    ProjectInjective(kept, Bare);
    ProjectMembers(kept, Bare);
    SortLists(Project(kept, Bare), LaterFirst);
  }

  lemma ProjectMembers(rows: seq<EventRow>, f: EventRow -> Row)
    ensures forall r :: r in Project(rows, f) <==> exists er :: er in rows && r == f(er)
  {
    forall er | er in rows ensures f(er) in Project(rows, f) {
      var i :| 0 <= i < |rows| && rows[i] == er;
      assert Project(rows, f)[i] == f(er);
    }
  }

  /** A reader that keeps every row of the pair under the event decides its flag by
      the first one it meets. */
  lemma ScanDecides(db: Tables, log: Log, keep: EventRow -> bool, eventId: string, pair: Pair)
    requires Represents(db, log) && DistinctSequences(log) && pair.active != pair.inactive
    requires forall er: EventRow :: er.parentId == Some(eventId) && (er.eventType == pair.active || er.eventType == pair.inactive) ==> keep(er)
    ensures First(Scan(db, keep), eventId, pair) == Some(true) <==> Active(log, eventId, pair)
  {
    hide Active, Represents;
    var table := Project(db.events, Bare);
    BareLog(db, log);
    ScannedOnce(db, log, keep);
    ProjectMembers(db.events, Bare);
    FirstDecides(Scan(db, keep), table, eventId, pair);
  }

  /** toggleTransition's own query on the tables. */
  method ReadLatestTransition(db: Tables, eventId: string, pair: Pair, ghost log: Log) returns (latest: Option<string>)
    requires Represents(db, log) && DistinctSequences(log) && pair.active != pair.inactive
    ensures latest == Some(pair.active) <==> Active(log, eventId, pair)
    ensures latest.Some? ==> latest.value == pair.active || latest.value == pair.inactive
  {
    hide Active, Represents, Scan;
    var keep := (er: EventRow) => er.parentId == Some(eventId) && (er.eventType == pair.active || er.eventType == pair.inactive);
    var page := Page(Scan(db, keep), 1, 0);
    ScanDecides(db, log, keep, eventId, pair);
    ScannedOnce(db, log, keep);
    EventRowsDiffer(db, log);
    if page == [] {
      return None;
    }
    assert page[0] == Scan(db, keep)[0] && page[0] in Scan(db, keep);
    latest := Some(page[0].event.eventType);
  }

  datatype Resolved = Resolved(star: bool, alert: bool)

  /** What the batch keeps for one requested event after scanning some rows. */
  ghost predicate Tracks(rows: seq<Row>, id: string, annotations: Annotations, resolved: Resolved) {
    && (resolved.star <==> First(rows, id, STAR).Some?)
    && (resolved.alert <==> First(rows, id, ALERT).Some?)
    && (annotations.starred <==> First(rows, id, STAR) == Some(true))
    && (annotations.alerted <==> First(rows, id, ALERT) == Some(true))
  }

  /** One row's effect on the state of its own parent. */
  function Advance(annotations: Annotations, resolved: Resolved, eventType: string): (Annotations, Resolved) {
    if eventType == "star" && !resolved.star then (annotations.(starred := true), resolved.(star := true))
    else if eventType == "unstar" && !resolved.star then (annotations.(starred := false), resolved.(star := true))
    else if eventType == "alert" && !resolved.alert then (annotations.(alerted := true), resolved.(alert := true))
    else if eventType == "clear-alert" && !resolved.alert then (annotations.(alerted := false), resolved.(alert := true))
    else (annotations, resolved)
  }

  lemma TracksRow(rows: seq<Row>, i: nat, id: string, annotations: Annotations, resolved: Resolved)
    requires i < |rows| && rows[i].event.parentId != "" && Tracks(rows[..i], id, annotations, resolved)
    ensures rows[i].event.parentId != id ==> Tracks(rows[..i + 1], id, annotations, resolved)
    ensures rows[i].event.parentId == id ==>
      Tracks(rows[..i + 1], id, Advance(annotations, resolved, rows[i].event.eventType).0, Advance(annotations, resolved, rows[i].event.eventType).1)
  {
    FirstStep(rows, i, id, STAR);
    FirstStep(rows, i, id, ALERT);
  }

  lemma TracksNothing(rows: seq<Row>, id: string)
    ensures Tracks(rows[..0], id, Annotations(false, false), Resolved(false, false))
  {
  }

  /** Nothing is left to learn at the end of the scan, or once both flags are resolved. */
  lemma TracksAll(rows: seq<Row>, i: nat, id: string, annotations: Annotations, resolved: Resolved)
    requires i <= |rows| && Tracks(rows[..i], id, annotations, resolved)
    requires i == |rows| || (resolved.star && resolved.alert)
    ensures annotations.starred <==> First(rows, id, STAR) == Some(true)
    ensures annotations.alerted <==> First(rows, id, ALERT) == Some(true)
  {
    assert rows[..i] + rows[i..] == rows;
    FirstExtends(rows[..i], rows[i..], id, STAR);
    FirstExtends(rows[..i], rows[i..], id, ALERT);
  }

  /** GetAnnotations: walks the transitions latest first and stops once both flags are resolved. */
  method GetAnnotations(db: Tables, eventId: string, ghost log: Log) returns (annotations: Annotations)
    requires Represents(db, log) && DistinctSequences(log)
    ensures annotations.starred <==> Active(log, eventId, STAR)
    ensures annotations.alerted <==> Active(log, eventId, ALERT)
  {
    hide Active, Represents, First, Scan, Tracks, Ascending;
    var keep := (er: EventRow) => er.parentId == Some(eventId) && IsAnnotation(er);
    var rows := Scan(db, keep);
    ScannedOnce(db, log, keep);
    EventRowsDiffer(db, log);
    ScanDecides(db, log, keep, eventId, STAR);
    ScanDecides(db, log, keep, eventId, ALERT);
    annotations := Annotations(false, false);
    var starResolved, alertResolved := false, false;
    TracksNothing(rows, eventId);
    var i := 0;
    while i < |rows|
      invariant 0 <= i <= |rows|
      invariant Tracks(rows[..i], eventId, annotations, Resolved(starResolved, alertResolved))
    {
      if starResolved && alertResolved {
        break;
      }
      assert rows[i] in rows;
      TracksRow(rows, i, eventId, annotations, Resolved(starResolved, alertResolved));
      var eventType := rows[i].event.eventType;
      if eventType == "star" {
        if !starResolved {
          annotations, starResolved := annotations.(starred := true), true;
        }
      } else if eventType == "unstar" {
        if !starResolved {
          annotations, starResolved := annotations.(starred := false), true;
        }
      } else if eventType == "alert" {
        if !alertResolved {
          annotations, alertResolved := annotations.(alerted := true), true;
        }
      } else if eventType == "clear-alert" {
        if !alertResolved {
          annotations, alertResolved := annotations.(alerted := false), true;
        }
      }
      i := i + 1;
    }
    TracksAll(rows, i, eventId, annotations, Resolved(starResolved, alertResolved));
  }

  method NothingResolved(eventIds: seq<string>) returns (annotations: map<string, Annotations>, resolved: map<string, Resolved>)
    ensures annotations.Keys == resolved.Keys == set id | id in eventIds
    ensures forall id :: id in annotations ==> annotations[id] == Annotations(false, false) && resolved[id] == Resolved(false, false)
  {
    annotations, resolved := map[], map[];
    for i := 0 to |eventIds|
      invariant annotations.Keys == resolved.Keys == set id | id in eventIds[..i]
      invariant forall id :: id in annotations ==> annotations[id] == Annotations(false, false) && resolved[id] == Resolved(false, false)
    {
      annotations := annotations[eventIds[i] := Annotations(false, false)];
      resolved := resolved[eventIds[i] := Resolved(false, false)];
      assert eventIds[..i + 1] == eventIds[..i] + [eventIds[i]];
    }
    assert eventIds[..|eventIds|] == eventIds;
  }

  /** GetAnnotationsBatch: one scan for all requested events, repeats included. */
  method GetAnnotationsBatch(db: Tables, eventIds: seq<string>, ghost log: Log) returns (annotations: map<string, Annotations>)
    requires Represents(db, log) && DistinctSequences(log)
    ensures annotations.Keys == set id | id in eventIds
    ensures forall id :: id in eventIds ==>
      (annotations[id].starred <==> Active(log, id, STAR)) && (annotations[id].alerted <==> Active(log, id, ALERT))
  {
    hide Active, Represents, First, Scan, Tracks, Ascending;
    var keep := (er: EventRow) => er.parentId.Some? && er.parentId.value in eventIds && IsAnnotation(er);
    var rows := Scan(db, keep);
    ScannedOnce(db, log, keep);
    EventRowsDiffer(db, log);
    var resolved;
    annotations, resolved := NothingResolved(eventIds);
    forall id | id in annotations ensures Tracks(rows[..0], id, annotations[id], resolved[id]) {
      TracksNothing(rows, id);
    }
    for i := 0 to |rows|
      invariant annotations.Keys == resolved.Keys == set id | id in eventIds
      invariant forall id :: id in annotations ==> Tracks(rows[..i], id, annotations[id], resolved[id])
    {
      hide Advance;
      assert rows[i] in rows;
      var parent := rows[i].event.parentId;
      forall id | id in annotations {
        TracksRow(rows, i, id, annotations[id], resolved[id]);
      }
      if parent in resolved {
        var (a, r) := Advance(annotations[parent], resolved[parent], rows[i].event.eventType);
        annotations := annotations[parent := a];
        resolved := resolved[parent := r];
      }
    }
    assert rows[..|rows|] == rows;
    forall id | id in eventIds
      ensures (annotations[id].starred <==> Active(log, id, STAR)) && (annotations[id].alerted <==> Active(log, id, ALERT))
    {
      TracksAll(rows, |rows|, id, annotations[id], resolved[id]);
      ScanDecides(db, log, keep, id, STAR);
      ScanDecides(db, log, keep, id, ALERT);
    }
  }

  // ----- The forward fold

  function ApplyTransition(annotations: Annotations, eventType: string): Annotations {
    if eventType == STAR.active then annotations.(starred := true)
    else if eventType == STAR.inactive then annotations.(starred := false)
    else if eventType == ALERT.active then annotations.(alerted := true)
    else if eventType == ALERT.inactive then annotations.(alerted := false)
    else annotations
  }

  /** Replays the transitions of one event, earliest first; the last of each pair wins. */
  function Fold(rows: seq<Row>, parent: string): Annotations {
    if rows == [] then Annotations(false, false)
    else
      var last := rows[|rows| - 1].event;
      var before := Fold(rows[..|rows| - 1], parent);
      if parent != "" && last.parentId == parent then ApplyTransition(before, last.eventType) else before
  }

  function Reversed(rows: seq<Row>): (r: seq<Row>)
    ensures |r| == |rows|
    ensures forall i :: 0 <= i < |rows| ==> r[i] == rows[|rows| - 1 - i]
  {
    if rows == [] then [] else [rows[|rows| - 1]] + Reversed(rows[..|rows| - 1])
  }

  lemma {:induction false} FoldIsFirstReversed(rows: seq<Row>, parent: string)
    ensures Fold(rows, parent).starred <==> First(Reversed(rows), parent, STAR) == Some(true)
    ensures Fold(rows, parent).alerted <==> First(Reversed(rows), parent, ALERT) == Some(true)
  {
    if rows != [] {
      FoldIsFirstReversed(rows[..|rows| - 1], parent);
    }
  }

  /** Replaying the whole log in ingest order gives the flags the readers derive. */
  lemma FoldAgrees(log: Log, parent: string)
    requires DistinctSequences(log)
    ensures var replay := Sort(log, EarlierFirst);
      && (Fold(replay, parent).starred <==> Active(log, parent, STAR))
      && (Fold(replay, parent).alerted <==> Active(log, parent, ALERT))
  {
    var replay := Sort(log, EarlierFirst);
    SequenceOrders(log);
    SortLists(log, EarlierFirst);
    var scan := Reversed(replay);
    forall r ensures r in scan <==> r in log {
      if r in log {
        assert r in replay;
        var i :| 0 <= i < |replay| && replay[i] == r;
        assert scan[|replay| - 1 - i] == r;
      }
    }
    FoldIsFirstReversed(replay, parent);
    FirstDecides(scan, log, parent, STAR);
    FirstDecides(scan, log, parent, ALERT);
  }

  /** The AlertedOnly subquery selects exactly the events whose folded alert flag is set. */
  lemma AlertFilterIsFold(db: Tables, log: Log, row: Row, args: seq<Value>)
    requires Represents(db, log) && DistinctSequences(log) && row in log
    ensures EvalPred(InActiveAlerts, EventEnv(Encode(row)), args, db) == Yes <==> Fold(Sort(log, EarlierFirst), row.event.id).alerted
  {
    hide Represents, Active;
    AlertRow(db, log, row, args);
    FoldAgrees(log, row.event.id);
  }
}
