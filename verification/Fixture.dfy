/** Deterministic fixtures: references are validated before anything is created,
    and applying a fixture again finds what the first run stored. */
module Fixture {
  import opened Contents
  import opened Model
  import opened Lookup
  import opened Policy
  import opened Sql
  import opened Text
  import opened Writers
  import opened Service = Registry

  /** timestamp_offset: absent, unreadable for Go's time.ParseDuration, or a duration. */
  datatype Offset = NoOffset | BadOffset | Offset(duration: int)

  datatype FixtureEvent = FixtureEvent(
    ref: string,
    parentRef: string,
    externalId: string,
    userName: string,
    timestamp: Option<int>,
    offset: Offset,
    eventType: string,
    description: string,
    longDescription: string,
    links: seq<EventLink>,
    linksValid: bool,
    tags: Tags)

  type Refs = map<string, string>

  /** What the service supplies for one creation: a new event id and the time. */
  datatype Stamp = Stamp(id: string, now: int)

  datatype ApplyError = InvalidEvent(position: nat) | CreateFailed(ref: string, outcome: Outcome)

  // ----- References

  predicate TimeIsClear(event: FixtureEvent) {
    (event.timestamp.None? || event.offset == NoOffset) && event.offset != BadOffset
  }

  /** Event i has a new nonempty ref, its parent ref was given before, and its time is clear. */
  ghost predicate ValidAt(events: seq<FixtureEvent>, i: nat, seen: set<string>)
    requires i < |events|
  {
    && events[i].ref != "" && events[i].ref !in seen
    && (forall j :: 0 <= j < i ==> events[j].ref != events[i].ref)
    && (events[i].parentRef != "" ==>
          events[i].parentRef in seen || exists j :: 0 <= j < i && events[j].ref == events[i].parentRef)
    && !events[i].offset.BadOffset? && !(events[i].offset.Offset? && events[i].timestamp.Some?)
  }

  ghost predicate ValidAfter(events: seq<FixtureEvent>, seen: set<string>) {
    forall i :: 0 <= i < |events| ==> ValidAt(events, i, seen)
  }

  ghost predicate ValidReferences(events: seq<FixtureEvent>) {
    ValidAfter(events, {})
  }

  /** validateEvent. */
  predicate ValidEvent(event: FixtureEvent, seen: set<string>) {
    && event.ref != "" && event.ref !in seen
    && (event.parentRef != "" ==> event.parentRef in seen)
    && TimeIsClear(event)
  }

  /** validateReferences: the position of the first invalid event, if there is one. */
  method ValidateReferences(events: seq<FixtureEvent>) returns (position: Option<nat>)
    ensures position.None? <==> ValidReferences(events)
    ensures position.Some? ==>
              && 1 <= position.value <= |events|
              && !ValidAt(events, position.value - 1, {})
              && forall i :: 0 <= i < position.value - 1 ==> ValidAt(events, i, {})
  {
    var seen: set<string> := {};
    for i := 0 to |events|
      invariant forall ref :: ref in seen <==> exists j :: 0 <= j < i && events[j].ref == ref
      invariant forall k :: 0 <= k < i ==> ValidAt(events, k, {})
    {
      if !ValidEvent(events[i], seen) {
        assert !ValidAt(events, i, {});
        return Some(i + 1);
      }
      seen := seen + {events[i].ref};
    }
    position := None;
  }

  lemma ValidTail(events: seq<FixtureEvent>, seen: set<string>)
    requires events != [] && ValidAfter(events, seen)
    ensures ValidAfter(events[1..], seen + {events[0].ref})
    ensures ValidEvent(events[0], seen)
  {
    assert ValidAt(events, 0, seen);
    forall i | 0 <= i < |events[1..]| ensures ValidAt(events[1..], i, seen + {events[0].ref}) {
      assert ValidAt(events, i + 1, seen);
      if events[i + 1].parentRef != "" && events[i + 1].parentRef !in seen + {events[0].ref} {
        var j :| 0 <= j < i + 1 && events[j].ref == events[i + 1].parentRef;
        assert events[1..][j - 1].ref == events[i + 1].parentRef;
      }
    }
  }

  // ----- One creation after another

  function TimestampOf(event: FixtureEvent, baseTime: int): Option<int> {
    match event.offset
    case Offset(duration) => Some(baseTime + duration)
    case BadOffset => Some(baseTime)
    case NoOffset => event.timestamp
  }

  function RequestOf(event: FixtureEvent, baseTime: int, refs: Refs): Request {
    Request(if event.parentRef != "" then Tag(refs, event.parentRef) else "", event.externalId,
            UserIdentity(event.userName, "", ""), TimestampOf(event, baseTime), event.eventType,
            event.description, event.longDescription, event.links, event.linksValid, event.tags)
  }

  /** The event a creation yields for the caller: a duplicate counts as success. */
  function Yielded(outcome: Outcome): Option<Event> {
    match outcome
    case Created(event) => Some(event)
    case Duplicate(existing) => existing
    case _ => None
  }

  /** The log and the result of creating the events in order. */
  function Play(log: Log, next: nat, events: seq<FixtureEvent>, baseTime: int, stamps: seq<Stamp>, refs: Refs): (Log, Result<Refs, ApplyError>)
    requires |stamps| == |events|
    decreases |events|
  {
    if events == [] then (log, Ok(refs))
    else
      var (outcome, row) := Submit(log, next, RequestOf(events[0], baseTime, refs), true, stamps[0].id, stamps[0].now);
      match Yielded(outcome)
      case None => (Appended(log, row), Err(CreateFailed(events[0].ref, outcome)))
      case Some(event) =>
        Play(Appended(log, row), if row.Some? then next + 1 else next, events[1..], baseTime, stamps[1..], refs[events[0].ref := event.id])
  }

  ghost predicate FreshStamps(log: Log, stamps: seq<Stamp>) {
    && (forall i :: 0 <= i < |stamps| ==> FreshId(log, stamps[i].id))
    && (forall i, j :: 0 <= i < j < |stamps| ==> stamps[i].id != stamps[j].id)
  }

  lemma SubmittedRow(log: Log, next: nat, request: Request, enforce: bool, id: string, now: int)
    ensures var (outcome, row) := Submit(log, next, request, enforce, id, now);
      && (row.Some? <==> outcome.Created?)
      && (row.Some? ==> row.value == Row(next, outcome.created) && outcome.created.id == id
                        && (request.externalId != "" ==> FindByExternalId(log, request.externalId).None?)
                        && outcome.created.externalId == request.externalId
                        && CreatedFrom(outcome.created, request, now)
                        && ValidateCreateRequest(request, enforce) == Ok((outcome.created.eventType, outcome.created.tags)))
      && (outcome.Duplicate? ==> request.externalId != "" && outcome.existing.Some? && FindByExternalId(log, request.externalId) == outcome.existing)
  {
    hide ValidateCreateRequest, Storable;
  }

  lemma SubmittedName(log: Log, next: nat, request: Request, enforce: bool, id: string, now: int)
    ensures var outcome := Submit(log, next, request, enforce, id, now).0;
      Yielded(outcome).Some? ==> Yielded(outcome).value.externalId == request.externalId
  {
    hide ValidateCreateRequest, Storable;
  }

  lemma StampsStayFresh(log: Log, stamps: seq<Stamp>, row: Option<Row>)
    requires stamps != [] && FreshStamps(log, stamps) && (row.Some? ==> row.value.event.id == stamps[0].id)
    ensures FreshStamps(Appended(log, row), stamps[1..]) && FreshId(log, stamps[0].id)
  {
  }

  /** ApplyAt. */
  method ApplyAt(registry: Service.Registry, events: seq<FixtureEvent>, baseTime: int, stamps: seq<Stamp>)
    returns (r: Result<Refs, ApplyError>)
    requires registry.Valid() && |stamps| == |events| && FreshStamps(registry.log, stamps)
    modifies registry
    ensures registry.Valid()
    ensures !ValidReferences(events) ==>
              && r.Err? && r.error.InvalidEvent? && registry.log == old(registry.log)
              && 1 <= r.error.position <= |events| && !ValidAt(events, r.error.position - 1, {})
              && forall i :: 0 <= i < r.error.position - 1 ==> ValidAt(events, i, {})
    ensures ValidReferences(events) ==>
              (registry.log, r) == Play(old(registry.log), old(registry.next), events, baseTime, stamps, map[])
  {
    hide Submit, ValidReferences, ValidAt, FreshStamps, RequestOf, Represents, WellFormed, FreshId, StoredRow, Appended,
      FindByExternalId, FindById, ValidateCreateRequest, CreatedFrom, TextsAreClean;
    var invalid := ValidateReferences(events);
    if invalid.Some? {
      return Err(InvalidEvent(invalid.value));
    }
    var refs: Refs := map[];
    ghost var log, next := registry.log, registry.next;
    assert events[0..] == events && stamps[0..] == stamps;
    for i := 0 to |events|
      invariant registry.Valid() && FreshStamps(registry.log, stamps[i..])
      invariant Play(log, next, events, baseTime, stamps, map[]) ==
                Play(registry.log, registry.next, events[i..], baseTime, stamps[i..], refs)
    {
      assert events[i..][1..] == events[i + 1..] && stamps[i..][1..] == stamps[i + 1..];
      var event := events[i];
      var request := RequestOf(event, baseTime, refs);
      SubmittedRow(registry.log, registry.next, request, true, stamps[i].id, stamps[i].now);
      assert stamps[i..][0] == stamps[i];
      StampsStayFresh(registry.log, stamps[i..], Submit(registry.log, registry.next, request, true, stamps[i].id, stamps[i].now).1);
      var outcome := registry.Create(request, true, stamps[i].id, stamps[i].now);
      var created := Yielded(outcome);
      if created.None? {
        return Err(CreateFailed(event.ref, outcome));
      }
      refs := refs[event.ref := created.value.id];
    }
    r := Ok(refs);
  }

  /** A failing run has created the events before the one it names, with its service
      error, and nothing after them. */
  lemma {:induction false} FailureStops(log: Log, next: nat, events: seq<FixtureEvent>, baseTime: int, stamps: seq<Stamp>, refs: Refs)
    returns (i: nat, sequence: nat, before: Refs)
    requires |stamps| == |events| && Play(log, next, events, baseTime, stamps, refs).1.Err?
    ensures i < |events|
    ensures var (final, r) := Play(log, next, events, baseTime, stamps, refs);
      var outcome := Submit(final, sequence, RequestOf(events[i], baseTime, before), true, stamps[i].id, stamps[i].now).0;
      && Play(log, next, events[..i], baseTime, stamps[..i], refs) == (final, Ok(before))
      && !outcome.Created? && (outcome.Duplicate? ==> outcome.existing.None?)
      && r == Err(CreateFailed(events[i].ref, outcome))
    decreases |events|
  {
    hide Submit, RequestOf;
    SubmittedRow(log, next, RequestOf(events[0], baseTime, refs), true, stamps[0].id, stamps[0].now);
    var (outcome, row) := Submit(log, next, RequestOf(events[0], baseTime, refs), true, stamps[0].id, stamps[0].now);
    if Yielded(outcome).None? {
      i, sequence, before := 0, next, refs;
    } else {
      var refs' := refs[events[0].ref := Yielded(outcome).value.id];
      i, sequence, before := FailureStops(Appended(log, row), if row.Some? then next + 1 else next, events[1..], baseTime, stamps[1..], refs');
      assert events[..i + 1][1..] == events[1..][..i] && stamps[..i + 1][1..] == stamps[1..][..i];
      i := i + 1;
    }
  }

  // ----- What a successful run means

  lemma {:induction false} PlayExtends(log: Log, next: nat, events: seq<FixtureEvent>, baseTime: int, stamps: seq<Stamp>, refs: Refs)
    requires |stamps| == |events|
    ensures log <= Play(log, next, events, baseTime, stamps, refs).0
    decreases |events|
  {
    hide Submit;
    if events != [] {
      var (outcome, row) := Submit(log, next, RequestOf(events[0], baseTime, refs), true, stamps[0].id, stamps[0].now);
      if Yielded(outcome).Some? {
        PlayExtends(Appended(log, row), if row.Some? then next + 1 else next, events[1..], baseTime, stamps[1..],
                    refs[events[0].ref := Yielded(outcome).value.id]);
      }
    }
  }

  /** A successful run names exactly the fixture's refs and leaves other refs alone. */
  lemma {:induction false} PlayRefs(log: Log, next: nat, events: seq<FixtureEvent>, baseTime: int, stamps: seq<Stamp>, refs: Refs, final: Refs)
    requires |stamps| == |events| && Play(log, next, events, baseTime, stamps, refs).1 == Ok(final)
    ensures forall ref :: ref in final <==> ref in refs || exists i :: 0 <= i < |events| && events[i].ref == ref
    ensures forall ref :: ref in refs && (forall i :: 0 <= i < |events| ==> events[i].ref != ref) ==> final[ref] == refs[ref]
    decreases |events|
  {
    hide Submit;
    if events != [] {
      var (outcome, row) := Submit(log, next, RequestOf(events[0], baseTime, refs), true, stamps[0].id, stamps[0].now);
      var refs' := refs[events[0].ref := Yielded(outcome).value.id];
      PlayRefs(Appended(log, row), if row.Some? then next + 1 else next, events[1..], baseTime, stamps[1..], refs', final);
      forall ref ensures ref in final <==> ref in refs || exists i :: 0 <= i < |events| && events[i].ref == ref {
        if i :| 0 <= i < |events| && events[i].ref == ref {
          assert i > 0 ==> events[1..][i - 1].ref == ref;
        }
      }
    }
  }

  /** No stored event and no earlier fixture event carries this event's external id. */
  ghost predicate IsNew(log: Log, events: seq<FixtureEvent>, i: nat)
    requires i < |events|
  {
    events[i].externalId == "" ||
    (FindByExternalId(log, events[i].externalId).None? && forall j :: 0 <= j < i ==> events[j].externalId != events[i].externalId)
  }

  /** The stored event is the one this fixture event asked for: its user, texts, links
      and external id, its time, the event its parent ref names as parent, and the
      type and tags the policy gives it. */
  ghost predicate MadeFrom(e: Event, event: FixtureEvent, baseTime: int, refs: Refs) {
    && e.externalId == event.externalId
    && (event.parentRef == "" ==> e.parentId == "")
    && (event.parentRef != "" ==> event.parentRef in refs && e.parentId == refs[event.parentRef])
    && e.user.name == event.userName && e.user.provider == "" && e.user.subject == ""
    && e.description == event.description && e.longDescription == event.longDescription && e.links == event.links
    && (event.offset.Offset? ==> e.timestamp == CanonicalTime(baseTime + event.offset.duration))
    && (event.offset.NoOffset? && event.timestamp.Some? ==> e.timestamp == CanonicalTime(event.timestamp.value))
    && (event.offset.NoOffset? && event.timestamp.None? ==> e.timestamp == e.createdAt)
    && PolicyOf(event, e.eventType, e.tags)
  }

  /** The type and tags the tag policy gives a request with the fixture event's own. */
  ghost predicate PolicyOf(event: FixtureEvent, eventType: string, tags: Tags) {
    && event.eventType != "" && event.linksValid && event.userName != ""
    && eventType == (if ToLower(TrimSpace(event.eventType)) == "maintenance" then "maintenance" else event.eventType)
    && tags.Keys == event.tags.Keys
    && (forall key :: key in tags ==> tags[key] == CanonicalValue(key, event.tags[key]))
    && ValidatePhaseTags(eventType, tags).None? && ValidateClassificationTags(tags).None?
  }

  lemma RequestContents(e: Event, event: FixtureEvent, baseTime: int, now: int, refs: Refs)
    requires TimeIsClear(event) && (event.parentRef != "" ==> event.parentRef in refs)
    requires CreatedFrom(e, RequestOf(event, baseTime, refs), now)
    requires ValidateCreateRequest(RequestOf(event, baseTime, refs), true) == Ok((e.eventType, e.tags))
    ensures MadeFrom(e, event, baseTime, refs)
  {
    hide ValidatePhaseTags, ValidateClassificationTags, CanonicalValue, ToLower, TrimSpace;
  }

  /** The ref of event i names a stored event with its external id, which the run
      made for it unless that external id was taken. */
  ghost predicate Resolved(log: Log, final: Log, events: seq<FixtureEvent>, i: nat, baseTime: int, refs: Refs)
    requires i < |events|
  {
    exists e :: e in Events(final)
      && events[i].ref in refs && refs[events[i].ref] == e.id
      && e.externalId == events[i].externalId
      && (IsNew(log, events, i) ==> MadeFrom(e, events[i], baseTime, refs))
  }

  lemma {:induction false} AppendedExternalId(log: Log, row: Row, externalId: string)
    ensures FindByExternalId(log + [row], externalId) ==
            if FindByExternalId(log, externalId).Some? then FindByExternalId(log, externalId)
            else if row.event.externalId == externalId then Some(row.event) else None
  {
    if log == [] {
      assert log + [row] == [row];
    } else {
      assert (log + [row])[1..] == log[1..] + [row];
      AppendedExternalId(log[1..], row, externalId);
    }
  }

  lemma NewLater(log: Log, row: Option<Row>, events: seq<FixtureEvent>, i: nat)
    requires 1 <= i < |events| && (row.Some? ==> row.value.event.externalId == events[0].externalId)
    requires IsNew(log, events, i)
    ensures IsNew(Appended(log, row), events[1..], i - 1)
  {
    if row.Some? {
      AppendedExternalId(log, row.value, events[i].externalId);
    }
    assert forall j :: 0 <= j < i - 1 ==> events[1..][j] == events[j + 1];
  }

  lemma SameParent(e: Event, event: FixtureEvent, baseTime: int, refs: Refs, final: Refs)
    requires MadeFrom(e, event, baseTime, refs)
    requires forall ref :: ref in refs && ref != event.ref ==> ref in final && final[ref] == refs[ref]
    requires event.parentRef != event.ref || event.parentRef == ""
    ensures MadeFrom(e, event, baseTime, final)
  {
    hide PolicyOf;
  }

  /** The first creation of a run resolves its ref for the whole run. */
  lemma FirstResolves(log: Log, next: nat, events: seq<FixtureEvent>, baseTime: int, stamps: seq<Stamp>, refs: Refs, final: Refs)
    requires events != [] && |stamps| == |events| && ValidAfter(events, refs.Keys)
    requires Play(log, next, events, baseTime, stamps, refs).1 == Ok(final)
    ensures Resolved(log, Play(log, next, events, baseTime, stamps, refs).0, events, 0, baseTime, final)
  {
    hide Submit, FindByExternalId, MadeFrom, CreatedFrom, ValidateCreateRequest;
    var request := RequestOf(events[0], baseTime, refs);
    var (outcome, row) := Submit(log, next, request, true, stamps[0].id, stamps[0].now);
    SubmittedRow(log, next, request, true, stamps[0].id, stamps[0].now);
    SubmittedName(log, next, request, true, stamps[0].id, stamps[0].now);
    var e := Yielded(outcome).value;
    var log', next', refs' := Appended(log, row), if row.Some? then next + 1 else next, refs[events[0].ref := e.id];
    PlayExtends(log', next', events[1..], baseTime, stamps[1..], refs');
    PlayRefs(log', next', events[1..], baseTime, stamps[1..], refs', final);
    ValidTail(events, refs.Keys);
    var stored := Play(log', next', events[1..], baseTime, stamps[1..], refs').0;
    assert e in Events(log');
    assert Events(log') <= Events(stored);
    forall ref | ref in refs' ensures ref in final && final[ref] == refs'[ref] {
      forall i | 0 <= i < |events[1..]| ensures events[1..][i].ref != ref {
        assert ValidAt(events[1..], i, refs.Keys + {events[0].ref});
      }
    }
    if row.Some? {
      RequestContents(e, events[0], baseTime, stamps[0].now, refs);
      SameParent(e, events[0], baseTime, refs, final);
    }
  }

  /** In a successful run every ref names the event stored for it, and a new event's
      parent is the event stored for the one earlier fixture event its parent ref names. */
  lemma {:induction false} RunResolves(log: Log, next: nat, events: seq<FixtureEvent>, baseTime: int, stamps: seq<Stamp>, refs: Refs, final: Refs)
    requires |stamps| == |events| && ValidAfter(events, refs.Keys)
    requires Play(log, next, events, baseTime, stamps, refs).1 == Ok(final)
    ensures forall i :: 0 <= i < |events| ==> Resolved(log, Play(log, next, events, baseTime, stamps, refs).0, events, i, baseTime, final)
    decreases |events|
  {
    hide Submit, MadeFrom, IsNew;
    if events != [] {
      FirstResolves(log, next, events, baseTime, stamps, refs, final);
      ValidTail(events, refs.Keys);
      var request := RequestOf(events[0], baseTime, refs);
      var (outcome, row) := Submit(log, next, request, true, stamps[0].id, stamps[0].now);
      SubmittedRow(log, next, request, true, stamps[0].id, stamps[0].now);
      var log', next', refs' := Appended(log, row), if row.Some? then next + 1 else next, refs[events[0].ref := Yielded(outcome).value.id];
      assert refs'.Keys == refs.Keys + {events[0].ref};
      RunResolves(log', next', events[1..], baseTime, stamps[1..], refs', final);
      var stored := Play(log, next, events, baseTime, stamps, refs).0;
      forall i | 1 <= i < |events| ensures Resolved(log, stored, events, i, baseTime, final) {
        assert Resolved(log', stored, events[1..], i - 1, baseTime, final);
        if IsNew(log, events, i) {
          NewLater(log, row, events, i);
        }
      }
    }
  }

  // ----- Applying a fixture again

  ghost predicate AllNamed(events: seq<FixtureEvent>) {
    forall event :: event in events ==> event.externalId != ""
  }

  /** Every fixture event's external id is stored, on the event its ref names. */
  ghost predicate Settled(log: Log, events: seq<FixtureEvent>, refs: Refs) {
    forall event :: event in events ==>
      && FindByExternalId(log, event.externalId).Some?
      && event.ref in refs && refs[event.ref] == FindByExternalId(log, event.externalId).value.id
  }

  lemma YieldedIsStored(log: Log, next: nat, request: Request, id: string, now: int)
    requires Yielded(Submit(log, next, request, true, id, now).0).Some? && request.externalId != ""
    ensures var (outcome, row) := Submit(log, next, request, true, id, now);
      FindByExternalId(Appended(log, row), request.externalId) == Yielded(outcome)
  {
    hide Submit, FindByExternalId;
    SubmittedRow(log, next, request, true, id, now);
    var (outcome, row) := Submit(log, next, request, true, id, now);
    if row.Some? {
      AppendedExternalId(log, row.value, request.externalId);
    }
  }

  lemma NewRefs(events: seq<FixtureEvent>, seen: set<string>)
    requires ValidAfter(events, seen)
    ensures forall event :: event in events ==> event.ref !in seen
  {
    forall event | event in events ensures event.ref !in seen {
      var i :| 0 <= i < |events| && events[i] == event;
      assert ValidAt(events, i, seen);
    }
  }

  /** A run stores its first event, or finds it stored, and keeps its ref. */
  lemma FirstSettles(log: Log, next: nat, events: seq<FixtureEvent>, baseTime: int, stamps: seq<Stamp>, refs: Refs, final: Refs)
    requires events != [] && |stamps| == |events| && ValidAfter(events, refs.Keys) && events[0].externalId != ""
    requires Play(log, next, events, baseTime, stamps, refs).1 == Ok(final)
    ensures Settled(Play(log, next, events, baseTime, stamps, refs).0, [events[0]], final)
  {
    hide Submit, FindByExternalId, ValidAfter, ValidEvent;
    ValidTail(events, refs.Keys);
    NewRefs(events[1..], refs.Keys + {events[0].ref});
    var request := RequestOf(events[0], baseTime, refs);
    var (outcome, row) := Submit(log, next, request, true, stamps[0].id, stamps[0].now);
    var e := Yielded(outcome).value;
    var log', next', refs' := Appended(log, row), if row.Some? then next + 1 else next, refs[events[0].ref := e.id];
    hide Yielded, Appended, Play;
    PlayExtends(log', next', events[1..], baseTime, stamps[1..], refs');
    PlayRefs(log', next', events[1..], baseTime, stamps[1..], refs', final);
    var stored := Play(log', next', events[1..], baseTime, stamps[1..], refs').0;
    YieldedIsStored(log, next, request, stamps[0].id, stamps[0].now);
    FoundForever(log', stored[|log'|..], request.externalId);
    assert stored == log' + stored[|log'|..];
  }

  lemma {:induction false} RunSettles(log: Log, next: nat, events: seq<FixtureEvent>, baseTime: int, stamps: seq<Stamp>, refs: Refs, final: Refs)
    requires |stamps| == |events| && ValidAfter(events, refs.Keys) && AllNamed(events)
    requires Play(log, next, events, baseTime, stamps, refs).1 == Ok(final)
    ensures Settled(Play(log, next, events, baseTime, stamps, refs).0, events, final)
    decreases |events|
  {
    hide Submit, ValidAfter, ValidEvent, RequestOf, Yielded, Appended;
    if events != [] {
      assert events[0] in events;
      FirstSettles(log, next, events, baseTime, stamps, refs, final);
      ValidTail(events, refs.Keys);
      var (outcome, row) := Submit(log, next, RequestOf(events[0], baseTime, refs), true, stamps[0].id, stamps[0].now);
      var refs' := refs[events[0].ref := Yielded(outcome).value.id];
      assert refs'.Keys == refs.Keys + {events[0].ref};
      RunSettles(Appended(log, row), if row.Some? then next + 1 else next, events[1..], baseTime, stamps[1..], refs', final);
      hide Settled;
      SettledWithFirst(Play(log, next, events, baseTime, stamps, refs).0, events, final);
    }
  }

  lemma SettledWithFirst(log: Log, events: seq<FixtureEvent>, final: Refs)
    requires events != [] && Settled(log, [events[0]], final) && Settled(log, events[1..], final)
    ensures Settled(log, events, final)
  {
    hide FindByExternalId;
    forall event | event in events ensures event in [events[0]] || event in events[1..] {
      var i :| 0 <= i < |events| && events[i] == event;
      assert i > 0 ==> events[1..][i - 1] == event;
    }
  }

  /** On a log where the fixture is settled, a run stores nothing and names the same events. */
  lemma {:induction false} SettledRun(log: Log, next: nat, events: seq<FixtureEvent>, baseTime: int, stamps: seq<Stamp>, refs: Refs, final: Refs)
    requires |stamps| == |events| && AllNamed(events) && Settled(log, events, final)
    requires forall ref :: ref in final <==> ref in refs || exists event :: event in events && event.ref == ref
    requires forall ref :: ref in refs && ref in final ==> final[ref] == refs[ref]
    ensures Play(log, next, events, baseTime, stamps, refs) == (log, Ok(final))
    decreases |events|
  {
    hide FindByExternalId, ValidateCreateRequest;
    if events == [] {
      assert refs == final;
    } else {
      assert events[0] in events;
      var refs' := refs[events[0].ref := FindByExternalId(log, events[0].externalId).value.id];
      forall event | event in events ensures event == events[0] || event in events[1..] {
        var i :| 0 <= i < |events| && events[i] == event;
        assert i > 0 ==> events[1..][i - 1] == event;
      }
      SettledRun(log, next, events[1..], baseTime, stamps[1..], refs', final);
    }
  }

  /** Applying a fixture whose events all have external ids a second time, whatever
      was appended in between and at any time, stores nothing and returns the same refs. */
  lemma ApplyingTwiceAddsNothing(log: Log, next: nat, events: seq<FixtureEvent>, baseTime: int, stamps: seq<Stamp>, refs: Refs,
                                 more: Log, next': nat, baseTime': int, stamps': seq<Stamp>)
    requires ValidReferences(events) && AllNamed(events) && |stamps| == |events| && |stamps'| == |events|
    requires Play(log, next, events, baseTime, stamps, map[]).1 == Ok(refs)
    ensures var later := Play(log, next, events, baseTime, stamps, map[]).0 + more;
      Play(later, next', events, baseTime', stamps', map[]) == (later, Ok(refs))
  {
    hide Play, FindByExternalId;
    var stored := Play(log, next, events, baseTime, stamps, map[]).0;
    var none: Refs := map[];
    assert none.Keys == {};
    RunSettles(log, next, events, baseTime, stamps, none, refs);
    PlayRefs(log, next, events, baseTime, stamps, map[], refs);
    forall event | event in events ensures FindByExternalId(stored + more, event.externalId) == FindByExternalId(stored, event.externalId) {
      FoundForever(stored, more, event.externalId);
    }
    forall ref ensures ref in refs <==> exists event :: event in events && event.ref == ref {
      if ref in refs {
        var i :| 0 <= i < |events| && events[i].ref == ref;
        assert events[i] in events;
      }
      if event :| event in events && event.ref == ref {
        var i :| 0 <= i < |events| && events[i] == event;
      }
    }
    SettledRun(stored + more, next', events, baseTime', stamps', map[], refs);
  }
}
