/** List: count, order and page of the events a query matches, read back with their tags. */
module EventList {
  import opened Clauses
  import opened Model
  import opened Ordering
  import opened Sql
  import opened Text
  import opened Where

  ghost function Matching(log: Log, p: ListParams): set<Event> {
    set e | e in Events(log) && Matches(p, log, e)
  }

  function EventSeq(log: Log): (r: seq<Event>)
    ensures |r| == |log|
    ensures forall i :: 0 <= i < |log| ==> r[i] == log[i].event
  {
    seq(|log|, i requires 0 <= i < |log| => log[i].event)
  }

  /** All matching events, newest first: what the pages of a query are cut from. */
  ghost function Listing(log: Log, p: ListParams): (r: seq<Event>) {
    Sort(Filter(EventSeq(log), e => Matches(p, log, e)), NewestFirst)
  }

  lemma EventSeqDistinct(log: Log)
    requires DistinctIds(log)
    ensures NoDuplicates(EventSeq(log)) && Elements(EventSeq(log)) == Events(log)
  {
    forall e ensures e in Elements(EventSeq(log)) <==> e in Events(log) {
      if e in Events(log) {
        var i :| 0 <= i < |log| && log[i].event == e;
        assert EventSeq(log)[i] == e;
      }
    }
  }

  lemma ListingLists(log: Log, p: ListParams)
    requires DistinctIds(log)
    ensures Lists(Listing(log, p), Matching(log, p), NewestFirst)
    ensures NoDuplicates(Listing(log, p))
  {
    var keep := e => Matches(p, log, e);
    EventSeqDistinct(log);
    FilterNoDuplicates(EventSeq(log), keep);
    var found := Filter(EventSeq(log), keep);
    assert Elements(found) == Matching(log, p);
    DistinctIdsAreUnique(log);
    EventOrders(Events(log));
    SortLists(found, NewestFirst);
    AscendingNoDuplicates(Listing(log, p));
  }

  lemma AscendingNoDuplicates(xs: seq<Event>)
    requires StrictOrder(NewestFirst) && Ascending(xs, NewestFirst)
    ensures NoDuplicates(xs)
  {
    forall i, j | 0 <= i < j < |xs| ensures xs[i] != xs[j] {
      assert NewestFirst(xs[i], xs[j]);
    }
  }

  /** loadTagsForEvents: the tag rows of the requested events, grouped by event. */
  method LoadTags(db: Tables, ids: set<string>, ghost log: Log) returns (result: map<string, Tags>)
    requires Represents(db, log)
    ensures forall row :: row in log && row.event.id in ids ==> LoadedTags(result, row.event.id) == row.event.tags
  {
    result := map[];
    var i := 0;
    while i < |db.tags|
      invariant 0 <= i <= |db.tags|
      invariant forall id, key, value :: id in ids ==>
        ((key in LoadedTags(result, id) && LoadedTags(result, id)[key] == value) <==> TagRow(id, key, value) in db.tags[..i])
    {
      var t := db.tags[i];
      ghost var before := result;
      if t.eventId in ids {
        if t.eventId !in result {
          result := result[t.eventId := map[]];
        }
        result := result[t.eventId := result[t.eventId][t.key := t.value]];
      }
      assert db.tags[..i + 1] == db.tags[..i] + [t];
      forall id, key, value | id in ids
        ensures (key in LoadedTags(result, id) && LoadedTags(result, id)[key] == value) <==> TagRow(id, key, value) in db.tags[..i + 1]
      {
        assert (key in LoadedTags(before, id) && LoadedTags(before, id)[key] == value) <==> TagRow(id, key, value) in db.tags[..i];
        if TagRow(id, key, value) in db.tags[..i] {
          var j :| 0 <= j < i && db.tags[j] == TagRow(id, key, value);
          assert (db.tags[j].eventId, db.tags[j].key) != (db.tags[i].eventId, db.tags[i].key);
        }
      }
      i := i + 1;
    }
    assert db.tags[..i] == db.tags;
    forall row | row in log && row.event.id in ids ensures LoadedTags(result, row.event.id) == row.event.tags {
      var tags := LoadedTags(result, row.event.id);
      forall key ensures key in tags <==> key in row.event.tags {
        if key in tags { TagRowsOf(db, log, row, key, tags[key]); }
        if key in row.event.tags { TagRowsOf(db, log, row, key, row.event.tags[key]); }
      }
      forall key | key in tags ensures tags[key] == row.event.tags[key] {
        TagRowsOf(db, log, row, key, tags[key]);
      }
    }
  }

  /** A missing entry of the result is a nil map. */
  function LoadedTags(loaded: map<string, Tags>, id: string): Tags {
    if id in loaded then loaded[id] else map[]
  }

  function DecodeAll(rows: seq<EventRow>, tags: map<string, Tags>): (r: seq<Event>)
    ensures |r| == |rows|
    ensures forall i :: 0 <= i < |rows| ==> r[i] == Decode(rows[i], LoadedTags(tags, rows[i].id))
  {
    seq(|rows|, i requires 0 <= i < |rows| => Decode(rows[i], LoadedTags(tags, rows[i].id)))
  }

  /** Selecting rows and then decoding them is decoding them and then selecting events. */
  lemma {:induction false} DecodeFiltered(rows: seq<EventRow>, events: seq<Event>, tags: map<string, Tags>,
                                          accept: EventRow -> bool, keep: Event -> bool)
    requires |rows| == |events|
    requires forall i :: 0 <= i < |rows| ==> Decode(rows[i], LoadedTags(tags, rows[i].id)) == events[i]
    requires forall i :: 0 <= i < |rows| ==> (accept(rows[i]) <==> keep(events[i]))
    ensures DecodeAll(Filter(rows, accept), tags) == Filter(events, keep)
  {
    if rows != [] {
      DecodeFiltered(rows[1..], events[1..], tags, accept, keep);
    }
  }

  /** What each statement of a list call sees: the count, the page and the tags are read one after another. */
  datatype Reads<T> = Reads(counted: T, fetched: T, tagged: T)

  ghost predicate ReadsOf(stores: Reads<Tables>, logs: Reads<Log>) {
    && Represents(stores.counted, logs.counted) && Represents(stores.fetched, logs.fetched) && Represents(stores.tagged, logs.tagged)
    && logs.counted <= logs.fetched <= logs.tagged
  }

  /** All statements see the same store. */
  function Still<T>(x: T): Reads<T> {
    Reads(x, x, x)
  }

  lemma {:induction false} SameCount(rows: seq<EventRow>, events: seq<Event>, accept: EventRow -> bool, keep: Event -> bool)
    requires |rows| == |events|
    requires forall i :: 0 <= i < |rows| ==> (accept(rows[i]) <==> keep(events[i]))
    ensures |Filter(rows, accept)| == |Filter(events, keep)|
  {
    if rows != [] {
      SameCount(rows[1..], events[1..], accept, keep);
    }
  }

  /** Tags loaded by a later statement are the tags of the events fetched before. */
  lemma TagsLoadedLater(db: Tables, log: Log, later: Log, ids: set<string>, tags: map<string, Tags>)
    requires Represents(db, log) && log <= later && ids == set er | er in db.events :: er.id
    requires forall row :: row in later && row.event.id in ids ==> LoadedTags(tags, row.event.id) == row.event.tags
    ensures forall row :: row in log ==> LoadedTags(tags, row.event.id) == row.event.tags && Canonical(row.event)
  {
    forall row | row in log ensures LoadedTags(tags, row.event.id) == row.event.tags && Canonical(row.event) {
      StoredIsCanonical(db, log, row);
      EncodedIn(db, log, row);
      assert row in later;
    }
  }

  /** The rows a clause selects from a represented log, counted. */
  method Count(db: Tables, p: ListParams, clauses: seq<Pred>, args: seq<Value>, ghost log: Log) returns (count: nat)
    requires Represents(db, log)
    requires forall row :: row in log ==> (Accepted(clauses, args, db, Encode(row)) <==> Matches(p, log, row.event))
    ensures count == |Listing(log, p)|
  {
    hide Matches, Accepted;
    var accept := (er: EventRow) => Accepted(clauses, args, db, er);
    ghost var keep := e => Matches(p, log, e);
    forall i | 0 <= i < |db.events| ensures accept(db.events[i]) <==> keep(EventSeq(log)[i]) {
      assert log[i] in log && db.events[i] == Encode(log[i]);
    }
    SameCount(db.events, EventSeq(log), accept, keep);
    count := |Filter(db.events, accept)|;
  }

  /** The rows a clause selects, with their tags, in listing order. */
  method Fetch(db: Tables, p: ListParams, clauses: seq<Pred>, args: seq<Value>, tags: map<string, Tags>, ghost log: Log)
    returns (ordered: seq<Event>)
    requires Represents(db, log)
    requires forall row :: row in log ==> (Accepted(clauses, args, db, Encode(row)) <==> Matches(p, log, row.event))
    requires forall row :: row in log ==> LoadedTags(tags, row.event.id) == row.event.tags && Canonical(row.event)
    ensures ordered == Listing(log, p)
  {
    hide Matches, Accepted;
    var accept := (er: EventRow) => Accepted(clauses, args, db, er);
    ghost var keep := e => Matches(p, log, e);
    forall i | 0 <= i < |db.events|
      ensures Decode(db.events[i], LoadedTags(tags, db.events[i].id)) == EventSeq(log)[i]
      ensures accept(db.events[i]) <==> keep(EventSeq(log)[i])
    {
      assert log[i] in log && db.events[i] == Encode(log[i]);
      DecodeEncode(log[i]);
    }
    DecodeFiltered(db.events, EventSeq(log), tags, accept, keep);
    ordered := Sort(DecodeAll(Filter(db.events, accept), tags), NewestFirst);
  }

  /** ORDER BY timestamp DESC, id ASC, spelled out. */
  ghost predicate NewestFirstById(events: seq<Event>) {
    forall i, j :: 0 <= i < j < |events| ==>
      events[i].timestamp > events[j].timestamp || (events[i].timestamp == events[j].timestamp && Less(events[i].id, events[j].id))
  }

  lemma PageIsOrdered(events: seq<Event>, limit: nat, offset: nat)
    requires Ascending(events, NewestFirst)
    ensures NewestFirstById(Page(events, limit, offset))
  {
    hide Less;
    var page := Page(events, limit, offset);
    forall i, j | 0 <= i < j < |page| ensures NewestFirst(page[i], page[j]) {
      assert page[i] == events[offset + i] && page[j] == events[offset + j];
    }
  }

  /** List: count, page and tags in three statements, with commits in between. The
      count and the page are read with their own argument lists. */
  method List(stores: Reads<Tables>, p: ListParams, ghost logs: Reads<Log>) returns (r: ListResult)
    requires ReadsOf(stores, logs)
    ensures r.totalCount == |Listing(logs.counted, p)|
    ensures r.events == Page(Listing(logs.fetched, p), EffectiveLimit(p.limit), p.offset)
    ensures r.limit == EffectiveLimit(p.limit) && r.offset == p.offset
    ensures NewestFirstById(r.events)
  {
    hide Represents, Accepted, Matches, Listing, LoadedTags;
    var clauses, args := BuildWhereClause(p);
    var limit := EffectiveLimit(p.limit);
    var total := Count(stores.counted, p, clauses, args, logs.counted);

    var limitParam, offsetParam, fetchArgs := BindPage(clauses, args, limit, p.offset);
    SameSelection(clauses, args, fetchArgs);
    var ids := set er | er in stores.fetched.events :: er.id;
    var tags := LoadTags(stores.tagged, ids, logs.tagged);
    TagsLoadedLater(stores.fetched, logs.fetched, logs.tagged, ids, tags);
    var ordered := Fetch(stores.fetched, p, clauses, fetchArgs, tags, logs.fetched);
    r := ListResult(Page(ordered, fetchArgs[limitParam - 1].number, fetchArgs[offsetParam - 1].number), total, limit, p.offset);
    RepresentedIds(stores.fetched, logs.fetched);
    ListingLists(logs.fetched, p);
    PageIsOrdered(ordered, limit, p.offset);
  }

  lemma SameSelection(clauses: seq<Pred>, args: seq<Value>, fetchArgs: seq<Value>)
    requires forall env, db :: EvalAll(clauses, env, fetchArgs, db) == EvalAll(clauses, env, args, db)
    ensures forall db, er :: Accepted(clauses, fetchArgs, db, er) <==> Accepted(clauses, args, db, er)
  {
  }
}
