/** Change events, requests and query parameters, and the append-only log they
    are derived from. */
module Model {
  import opened Text
  import opened Ordering

  datatype Option<+T> = None | Some(value: T)

  type Tags = map<string, string>

  /** Reading a Go map: a missing key yields the empty string. */
  function Tag(tags: Tags, key: string): string {
    if key in tags then tags[key] else ""
  }

  datatype UserIdentity = UserIdentity(name: string, provider: string, subject: string)

  datatype EventLink = EventLink(linkLabel: string, url: string)

  /** An immutable event. An empty externalId or parentId stands for SQL NULL.
      Times are nanoseconds. */
  datatype Event = Event(
    id: string,
    externalId: string,
    parentId: string,
    user: UserIdentity,
    timestamp: int,
    eventType: string,
    description: string,
    longDescription: string,
    links: seq<EventLink>,
    tags: Tags,
    createdAt: int)
  {
    predicate TopLevel() {
      parentId == ""
    }
  }

  const SECOND := 1_000_000_000

  /** Truncation to a whole second; the remainder is never negative. */
  function CanonicalTime(t: int): (r: int)
    ensures r % 1_000_000_000 == 0 && r <= t < r + 1_000_000_000
  {
    t - t % SECOND
  }

  /** ORDER BY timestamp DESC, id ASC. */
  predicate NewestFirst(a: Event, b: Event) {
    a.timestamp > b.timestamp || (a.timestamp == b.timestamp && Less(a.id, b.id))
  }

  /** Ascending (timestamp, id): the order of activity lists and of representatives. */
  predicate OldestFirst(a: Event, b: Event) {
    a.timestamp < b.timestamp || (a.timestamp == b.timestamp && Less(a.id, b.id))
  }

  ghost predicate UniqueIds(events: set<Event>) {
    forall a, b :: a in events && b in events && a.id == b.id ==> a == b
  }

  lemma EventOrders(events: set<Event>)
    requires UniqueIds(events)
    ensures StrictOrder(NewestFirst) && Comparable(events, NewestFirst)
    ensures StrictOrder(OldestFirst) && Comparable(events, OldestFirst)
  {
    forall a: Event, b: Event
      ensures Less(a.id, b.id) || a.id == b.id || Less(b.id, a.id)
      ensures !(Less(a.id, b.id) && Less(b.id, a.id))
    {
      LessTotal(a.id, b.id);
    }
    forall a: Event, b: Event, c: Event | Less(a.id, b.id) && Less(b.id, c.id)
      ensures Less(a.id, c.id)
    {
      LessTransitive(a.id, b.id, c.id);
    }
    forall a: Event ensures !NewestFirst(a, a) && !OldestFirst(a, a) {
      LessTotal(a.id, a.id);
    }
  }

  /** A stored event with the ingest_sequence the database assigned at insert. */
  datatype Row = Row(sequence: nat, event: Event)

  /** Committed rows, in commit order. */
  type Log = seq<Row>

  function Events(log: Log): (events: set<Event>)
    ensures forall row :: row in log ==> row.event in events
  {
    set row | row in log :: row.event
  }

  lemma EventsAppend(log: Log, row: Row)
    ensures Events(log + [row]) == Events(log) + {row.event}
  {
  }

  ghost predicate DistinctIds(log: Log) {
    forall i, j :: 0 <= i < j < |log| ==> log[i].event.id != log[j].event.id
  }

  ghost predicate DistinctSequences(log: Log) {
    forall i, j :: 0 <= i < j < |log| ==> log[i].sequence != log[j].sequence
  }

  /** The partial unique index on external_id. */
  ghost predicate DistinctExternalIds(log: Log) {
    forall i, j :: 0 <= i < j < |log| && log[i].event.externalId != "" ==> log[i].event.externalId != log[j].event.externalId
  }

  /** id names a row of the log ingested before the given sequence number. */
  ghost predicate StoredBefore(log: Log, id: string, sequence: nat) {
    exists row :: row in log && row.event.id == id && row.sequence < sequence
  }

  /** The parent_id foreign key, strengthened to an earlier ingest_sequence. */
  ghost predicate ParentsEarlier(log: Log) {
    forall row :: row in log && row.event.parentId != "" ==> StoredBefore(log, row.event.parentId, row.sequence)
  }

  ghost predicate TypesPresent(log: Log) {
    forall row :: row in log ==> row.event.eventType != ""
  }

  /** What the store keeps true of every committed log. */
  ghost predicate WellFormed(log: Log) {
    && DistinctIds(log)
    && DistinctSequences(log)
    && DistinctExternalIds(log)
    && ParentsEarlier(log)
    && TypesPresent(log)
  }

  lemma DistinctIdsAreUnique(log: Log)
    requires DistinctIds(log)
    ensures UniqueIds(Events(log))
  {
    forall a, b | a in Events(log) && b in Events(log) && a.id == b.id ensures a == b {
      var i :| 0 <= i < |log| && log[i].event == a;
      var j :| 0 <= j < |log| && log[j].event == b;
      assert !(i < j) && !(j < i);
    }
  }

  /** A pair of opposite transitions: star/unstar or alert/clear-alert. */
  datatype Pair = Pair(active: string, inactive: string)

  const STAR := Pair("star", "unstar")
  const ALERT := Pair("alert", "clear-alert")

  datatype Annotations = Annotations(starred: bool, alerted: bool)

  datatype ListParams = ListParams(
    parentId: string,
    startAfter: Option<int>,
    startBefore: Option<int>,
    around: Option<int>,
    window: Option<int>,
    userName: string,
    eventType: string,
    topLevel: bool,
    alertedOnly: bool,
    tags: Tags,
    limit: int,
    offset: nat)

  datatype CurrentParams = CurrentParams(
    forTeam: string,
    scopes: seq<string>,
    severities: seq<string>,
    eventType: string,
    correlationKey: string,
    correlationValue: string,
    limit: int,
    offset: nat)

  datatype ListResult = ListResult(events: seq<Event>, totalCount: nat, limit: nat, offset: nat)

  const DEFAULT_LIMIT: nat := 50
  const MAX_LIMIT: nat := 200

  function EffectiveLimit(limit: int): (r: nat)
    ensures 1 <= r <= MAX_LIMIT
    ensures limit <= 0 ==> r == 50
    ensures 1 <= limit <= 200 ==> r == limit
    ensures limit > 200 ==> r == 200
  {
    if limit <= 0 then DEFAULT_LIMIT else if limit > MAX_LIMIT then MAX_LIMIT else limit
  }
}
