/** GetActivity: the children of an event and, for a correlated start, the ends
    that close its operation, in chronological order. */
module Activity {
  import opened Model
  import opened Ordering
  import opened Operations
  import opened Lookup
  import opened Sql
  import opened Text
  import opened Where
  import opened EventList
  import opened Paging

  /** GetByID on the tables: the event row, with its tags loaded. */
  method GetById(db: Tables, id: string, ghost log: Log) returns (r: Option<Event>)
    requires Represents(db, log)
    ensures r == FindById(log, id)
  {
    var tags := LoadTags(db, {id}, log);
    for i := 0 to |db.events|
      invariant forall j :: 0 <= j < i ==> db.events[j].id != id
    {
      if db.events[i].id == id {
        ghost var row := log[i];
        assert row in log && db.events[i] == Encode(row);
        DecodeEncode(row);
        DistinctIdsAreUnique(log);
        FindUnique(log, row.event);
        return Some(Decode(db.events[i], LoadedTags(tags, id)));
      }
    }
    forall row | row in log ensures row.event.id != id {
      EncodedIn(db, log, row);
      var j :| 0 <= j < |db.events| && db.events[j] == Encode(row);
    }
    r := None;
  }

  const NO_FILTER := ListParams("", None, None, None, None, "", "", false, false, map[], 0, 0)

  function ChildParams(eventId: string): ListParams {
    NO_FILTER.(parentId := eventId)
  }

  function ClosureParams(eventType: string, key: string, value: string): ListParams {
    NO_FILTER.(eventType := eventType, topLevel := true, tags := map[key := value, PHASE := "end"])
  }

  /** The events listed besides the children. */
  ghost function Closures(log: Log, parent: Event): set<Event> {
    match OperationIdentity(Some(parent))
    case None => {}
    case Some((key, value)) => Matching(log, ClosureParams(parent.eventType, key, value))
  }

  ghost function Children(log: Log, eventId: string): set<Event> {
    set e | e in Events(log) && e.parentId == eventId
  }

  lemma ChildrenMatch(log: Log, eventId: string)
    requires eventId != ""
    ensures Matching(log, ChildParams(eventId)) == Children(log, eventId)
  {
  }

  /** The listing of an unchanging store, page by page. */
  method ListAllOf(db: Tables, p: ListParams, ghost log: Log) returns (events: seq<Event>)
    requires Represents(db, log) && p.offset == 0
    ensures NoDuplicates(events) && Elements(events) == Matching(log, p)
  {
    hide Represents, Matching, DistinctIds, Paging.Sound, RunOf, Complete, TailGathered, Quiet, Persistent;
    var calls := |db.events| + 1;
    ghost var logs := seq(calls, _ => Still(log));
    SameStore(db, log, calls);
    ListingIsShort(db, log, p);
    var done, last;
    ghost var offsets;
    done, events, last, offsets := ListAll(seq(calls, _ => Still(db)), p, logs);
    RepresentedIds(db, log);
    ListingLists(log, p);
  }

  lemma SameStore(db: Tables, log: Log, calls: nat)
    requires Represents(db, log)
    ensures Snapshots(seq(calls, _ => Still(db)), seq(calls, _ => Still(log))) && Unchanging(seq(calls, _ => Still(log)))
  {
    hide Represents;
  }

  lemma ListingIsShort(db: Tables, log: Log, p: ListParams)
    requires Represents(db, log)
    ensures |Listing(log, p)| <= |db.events|
  {
  }

  /** GetActivity on an unchanging store: every child and every closure, once each, oldest first. */
  method GetActivity(db: Tables, eventId: string, ghost log: Log) returns (activity: Option<seq<Event>>)
    requires Represents(db, log)
    ensures activity.Some? <==> FindById(log, eventId).Some?
    ensures activity.Some? ==>
      Lists(activity.value, Children(log, eventId) + Closures(log, FindById(log, eventId).value), OldestFirst)
    ensures activity.Some? ==> forall i, j :: 0 <= i < j < |activity.value| ==>
      var a, b := activity.value[i], activity.value[j];
      a.timestamp < b.timestamp || (a.timestamp == b.timestamp && Less(a.id, b.id))
  {
    var parent := GetById(db, eventId, log);
    if parent.None? {
      return None;
    }
    FoundHasId(db, log, eventId);
    var events := ListAllOf(db, ChildParams(eventId), log);
    ChildrenMatch(log, eventId);
    var identity := OperationIdentity(parent);
    if identity.Some? {
      var (key, value) := identity.value;
      var closures := ListAllOf(db, ClosureParams(parent.value.eventType, key, value), log);
      Disjoint(log, eventId, events, closures, ClosureParams(parent.value.eventType, key, value));
      events := events + closures;
    }
    assert Elements(events) == Children(log, eventId) + Closures(log, parent.value);
    ActivitySorts(db, log, events);
    activity := Some(Sort(events, OldestFirst));
  }

  lemma FoundHasId(db: Tables, log: Log, eventId: string)
    requires Represents(db, log) && FindById(log, eventId).Some?
    ensures eventId != ""
  {
    var row :| row in log && row.event == FindById(log, eventId).value;
  }

  /** Children have a parent and closures have none. */
  lemma Disjoint(log: Log, eventId: string, children: seq<Event>, closures: seq<Event>, p: ListParams)
    requires eventId != "" && p.topLevel
    requires NoDuplicates(children) && Elements(children) == Children(log, eventId)
    requires NoDuplicates(closures) && Elements(closures) == Matching(log, p)
    ensures NoDuplicates(children + closures)
    ensures Elements(children + closures) == Children(log, eventId) + Matching(log, p)
  {
    forall i, j | 0 <= i < |children| && 0 <= j < |closures| ensures children[i] != closures[j] {
      assert children[i] in Elements(children) && closures[j] in Elements(closures);
    }
  }

  lemma ActivitySorts(db: Tables, log: Log, events: seq<Event>)
    requires Represents(db, log) && NoDuplicates(events) && Elements(events) <= Events(log)
    ensures Lists(Sort(events, OldestFirst), Elements(events), OldestFirst)
  {
    DistinctIdsAreUnique(log);
    EventOrders(Events(log));
    SortLists(events, OldestFirst);
  }

  /** Every end that closes the operation is listed. */
  lemma EveryClosureIsListed(log: Log, parent: Event, op: Operation, end: Event)
    requires Starts(parent, op) && end in Events(log) && Ends(end, op)
    ensures end in Closures(log, parent)
  {
    IdentityStarts(parent, op);
  }

  /** A listed closure closes the operation exactly when the key is change_id or
      the event has no change_id of its own; with change_id nothing else
      top-level is listed. */
  lemma ListedClosures(log: Log, parent: Event, op: Operation, e: Event)
    requires Starts(parent, op) && parent.eventType != "" && e in Closures(log, parent)
    ensures HasPhase(e, "end") && e.eventType == parent.eventType
    ensures Ends(e, op) <==> op.key == CHANGE_ID || Tag(e.tags, CHANGE_ID) == ""
  {
    IdentityStarts(parent, op);
    var wanted: Tags := map[op.key := op.value, PHASE := "end"];
    assert PHASE in wanted && op.key in wanted;
    assert wanted[PHASE] == "end" && wanted[op.key] == op.value;
    assert HasTags(e.tags, wanted);
  }

  /** With deploy_id an end of another operation can be listed as well, on a log the store can hold. */
  lemma DeployActivityCanListForeignEnds()
    ensures exists log: Log, parent: Event, op: Operation, e: Event ::
      WellFormed(log) && Starts(parent, op) && parent in Events(log) && e in Closures(log, parent) && !Ends(e, op)
  {
    var user := UserIdentity("ci", "", "");
    var parent := Event("1", "", "", user, 0, "deployment", "", "", [], map[PHASE := "start", DEPLOY_ID := "d"], 0);
    var e := Event("2", "", "", user, 0, "deployment", "", "", [], map[PHASE := "end", DEPLOY_ID := "d", CHANGE_ID := "c"], 0);
    var log := [Row(0, parent), Row(1, e)];
    var op := Operation("deployment", DEPLOY_ID, "d");
    assert log[0] in log && log[1] in log;
    assert WellFormed(log);
    assert Starts(parent, op);
    var wanted: Tags := map[DEPLOY_ID := "d", PHASE := "end"];
    assert HasTags(e.tags, wanted);
    assert e in Closures(log, parent);
    assert !Ends(e, op);
  }
}
