/** listAll: collecting every page of a query, on an unchanging store and on one
    that grows between the page calls. */
module Paging {
  import opened Model
  import opened Ordering
  import opened Sql
  import opened Where
  import opened EventList

  /** The statements of the page calls, one call after another; commits in between only append. */
  ghost predicate Snapshots(stores: seq<Reads<Tables>>, logs: seq<Reads<Log>>) {
    && |stores| == |logs|
    && (forall i :: 0 <= i < |logs| ==> ReadsOf(stores[i], logs[i]))
    && (forall i, j :: 0 <= i < j < |logs| ==> logs[i].tagged <= logs[j].counted)
  }

  /** An event that matched still matches in later snapshots. */
  ghost predicate Persistent(logs: seq<Reads<Log>>, p: ListParams) {
    && (forall i :: 0 <= i < |logs| ==> Matching(logs[i].counted, p) <= Matching(logs[i].fetched, p))
    && (forall i, j :: 0 <= i < j < |logs| ==> Matching(logs[i].fetched, p) <= Matching(logs[j].fetched, p))
  }

  ghost predicate Unchanging(logs: seq<Reads<Log>>) {
    forall i :: 0 <= i < |logs| ==> logs[i] == Still(logs[0].counted)
  }

  /** Every filter but the alert filter reads the immutable event alone. */
  lemma PlainFiltersPersist(stores: seq<Reads<Tables>>, logs: seq<Reads<Log>>, p: ListParams)
    requires Snapshots(stores, logs) && !p.alertedOnly
    ensures Persistent(logs, p)
  {
    hide Represents, Matching;
    forall i | 0 <= i < |logs| ensures Matching(logs[i].counted, p) <= Matching(logs[i].fetched, p) {
      assert ReadsOf(stores[i], logs[i]);
      PlainMatchPersists(logs[i].counted, logs[i].fetched, p);
    }
    forall i, j | 0 <= i < j < |logs| ensures Matching(logs[i].fetched, p) <= Matching(logs[j].fetched, p) {
      EarlierSnapshot(stores, logs, i, j);
      PlainMatchPersists(logs[i].fetched, logs[j].fetched, p);
    }
  }

  lemma PlainMatchPersists(log: Log, later: Log, p: ListParams)
    requires log <= later && !p.alertedOnly
    ensures Matching(log, p) <= Matching(later, p)
  {
    forall e | e in Matching(log, p) ensures e in Matching(later, p) {
      var row :| row in log && row.event == e;
      assert row in later;
    }
  }

  lemma EarlierSnapshot(stores: seq<Reads<Tables>>, logs: seq<Reads<Log>>, i: nat, j: nat)
    requires Snapshots(stores, logs) && i < j < |logs|
    ensures logs[i].fetched <= logs[j].fetched
  {
    hide Represents;
    assert ReadsOf(stores[i], logs[i]) && ReadsOf(stores[j], logs[j]);
  }

  lemma PageDoesNotChangeMatches(log: Log, p: ListParams, limit: int, offset: nat)
    ensures Matching(log, p.(limit := limit, offset := offset)) == Matching(log, p)
  {
    hide Active, HasTags;
  }

  lemma PageDoesNotChangeListing(log: Log, p: ListParams, limit: int, offset: nat)
    requires DistinctIds(log)
    ensures Listing(log, p.(limit := limit, offset := offset)) == Listing(log, p)
  {
    hide Matches, Matching, Listing, Lists, DistinctIds, UniqueIds, StrictOrder;
    var q := p.(limit := limit, offset := offset);
    ListingLists(log, p);
    ListingLists(log, q);
    PageDoesNotChangeMatches(log, p, limit, offset);
    DistinctIdsAreUnique(log);
    EventOrders(Events(log));
    ListingIsUnique(Listing(log, q), Listing(log, p), Matching(log, p), NewestFirst);
  }

  lemma NeverBothWays(a: Event, b: Event)
    requires StrictOrder(NewestFirst)
    ensures !(NewestFirst(a, b) && NewestFirst(b, a))
  {
    assert NewestFirst(a, b) && NewestFirst(b, a) ==> NewestFirst(a, a);
  }

  /** In a larger listing an event can only stand further down. */
  lemma {:induction false} PositionsGrow(xs: seq<Event>, ys: seq<Event>, k: nat, k': nat)
    requires StrictOrder(NewestFirst) && Ascending(xs, NewestFirst) && Ascending(ys, NewestFirst)
    requires Elements(xs) <= Elements(ys)
    requires k < |xs| && k' < |ys| && xs[k] == ys[k']
    ensures k <= k'
    decreases k
  {
    if k > 0 {
      assert xs[k - 1] in Elements(ys);
      var m :| 0 <= m < |ys| && ys[m] == xs[k - 1];
      NeverBothWays(xs[k - 1], xs[k]);
      assert m < k';
      PositionsGrow(xs, ys, k - 1, m);
    }
  }

  ghost predicate AtOrAfter(xs: seq<Event>, e: Event, offset: nat) {
    exists k :: offset <= k < |xs| && xs[k] == e
  }

  lemma LaterListing(log: Log, later: Log, p: ListParams, e: Event, offset: nat)
    requires DistinctIds(log) && DistinctIds(later) && log <= later
    requires Matching(log, p) <= Matching(later, p)
    requires AtOrAfter(Listing(log, p), e, offset)
    ensures AtOrAfter(Listing(later, p), e, offset)
  {
    var xs, ys := Listing(log, p), Listing(later, p);
    ListingLists(log, p);
    ListingLists(later, p);
    DistinctIdsAreUnique(log);
    EventOrders(Events(log));
    var k :| offset <= k < |xs| && xs[k] == e;
    assert e in Elements(xs) && e in Elements(ys);
    var k' :| 0 <= k' < |ys| && ys[k'] == e;
    PositionsGrow(xs, ys, k, k');
  }

  /** A page covers the positions from its offset on; what it leaves stands beyond it. */
  lemma PageCovers(xs: seq<Event>, e: Event, limit: nat, offset: nat)
    requires AtOrAfter(xs, e, offset) && limit > 0
    ensures Page(xs, limit, offset) != []
    ensures e in Page(xs, limit, offset) || AtOrAfter(xs, e, offset + |Page(xs, limit, offset)|)
  {
    var page := Page(xs, limit, offset);
    var k :| offset <= k < |xs| && xs[k] == e;
    if k < offset + |page| {
      assert page[k - offset] == e;
    }
  }

  /** Every match of the first log is among the events, or stands at the offset or later now. */
  ghost predicate Collected(log: Log, p: ListParams, now: Log, events: seq<Event>, offset: nat) {
    forall e :: e in Matching(log, p) ==> e in events || AtOrAfter(Listing(now, p), e, offset)
  }

  /** Appending a page and moving past it keeps every matching event accounted for. */
  lemma CollectPage(log: Log, p: ListParams, now: Log, events: seq<Event>, offset: nat)
    requires Collected(log, p, now, events, offset)
    ensures var page := Page(Listing(now, p), MAX_LIMIT, offset); Collected(log, p, now, events + page, offset + |page|)
  {
    var page := Page(Listing(now, p), MAX_LIMIT, offset);
    forall e | e in Matching(log, p) ensures e in events + page || AtOrAfter(Listing(now, p), e, offset + |page|) {
      if e !in events {
        PageCovers(Listing(now, p), e, MAX_LIMIT, offset);
      }
    }
  }

  lemma CollectLater(log: Log, p: ListParams, now: Log, later: Log, events: seq<Event>, offset: nat)
    requires DistinctIds(now) && DistinctIds(later) && now <= later && Matching(now, p) <= Matching(later, p)
    requires Collected(log, p, now, events, offset)
    ensures Collected(log, p, later, events, offset)
  {
    forall e | e in Matching(log, p) ensures e in events || AtOrAfter(Listing(later, p), e, offset) {
      if e !in events {
        LaterListing(now, later, p, e, offset);
      }
    }
  }

  lemma CollectStart(log: Log, now: Log, p: ListParams)
    requires DistinctIds(now) && Matching(log, p) <= Matching(now, p)
    ensures Collected(log, p, now, [], 0)
  {
    ListingLists(now, p);
    forall e | e in Matching(log, p) ensures AtOrAfter(Listing(now, p), e, 0) {
      assert e in Elements(Listing(now, p));
    }
  }

  lemma PageMatches(log: Log, p: ListParams, offset: nat)
    requires DistinctIds(log)
    ensures forall e :: e in Page(Listing(log, p), MAX_LIMIT, offset) ==> e in Matching(log, p)
  {
    ListingLists(log, p);
    forall e | e in Page(Listing(log, p), MAX_LIMIT, offset) ensures e in Matching(log, p) {
      assert e in Elements(Listing(log, p));
    }
  }

  lemma CallReads(stores: seq<Reads<Tables>>, logs: seq<Reads<Log>>, i: nat)
    requires Snapshots(stores, logs) && i < |logs|
    ensures |stores| == |logs| && ReadsOf(stores[i], logs[i])
    ensures DistinctIds(logs[i].counted) && DistinctIds(logs[i].fetched)
  {
    assert ReadsOf(stores[i], logs[i]);
  }

  // ----- What a run of the loop is

  /** The events are the pages the calls fetched, one after another; offsets[j] is
      where call j's page begins, and the last offset is where the next would. */
  ghost predicate Paged(logs: seq<Reads<Log>>, p: ListParams, events: seq<Event>, offsets: seq<nat>) {
    && 1 <= |offsets| <= |logs| + 1
    && offsets[0] == 0 && offsets[|offsets| - 1] == |events|
    && forall j :: 0 <= j < |offsets| - 1 ==> IsPage(logs[j].fetched, p, events, offsets[j], offsets[j + 1])
  }

  ghost predicate IsPage(log: Log, p: ListParams, events: seq<Event>, from: nat, to: nat) {
    from <= to <= |events| && events[from..to] == Page(Listing(log, p), MAX_LIMIT, from)
  }

  /** Call j fetched nothing, or as much as it had counted. */
  ghost predicate Stops(logs: seq<Reads<Log>>, p: ListParams, offsets: seq<nat>, j: nat)
    requires j < |logs| && j + 1 < |offsets|
  {
    offsets[j] == offsets[j + 1] || offsets[j + 1] >= |Listing(logs[j].counted, p)|
  }

  /** A run gathers whole pages and ends with the first call that stops it. */
  ghost predicate RunOf(logs: seq<Reads<Log>>, p: ListParams, done: bool, events: seq<Event>, last: nat, offsets: seq<nat>) {
    && Paged(logs, p, events, offsets)
    && (forall j :: 0 <= j < last && j + 1 < |offsets| ==> !Stops(logs, p, offsets, j))
    && (if done then |offsets| == last + 2 && Stops(logs, p, offsets, last) else last == |logs| && |offsets| == last + 1)
  }

  lemma PageAppended(logs: seq<Reads<Log>>, p: ListParams, events: seq<Event>, offsets: seq<nat>, page: seq<Event>)
    requires Paged(logs, p, events, offsets) && |offsets| <= |logs|
    requires page == Page(Listing(logs[|offsets| - 1].fetched, p), MAX_LIMIT, |events|)
    ensures Paged(logs, p, events + page, offsets + [|events + page|])
    ensures forall j :: 0 <= j < |offsets| - 1 ==>
      (Stops(logs, p, offsets + [|events + page|], j) <==> Stops(logs, p, offsets, j))
  {
    hide Listing;
    var all, more := events + page, offsets + [|events + page|];
    forall j | 0 <= j < |more| - 1 ensures IsPage(logs[j].fetched, p, all, more[j], more[j + 1]) {
      if j < |offsets| - 1 {
        assert IsPage(logs[j].fetched, p, events, offsets[j], offsets[j + 1]);
        assert all[offsets[j]..offsets[j + 1]] == events[offsets[j]..offsets[j + 1]];
      } else {
        assert all[|events|..] == page;
      }
    }
  }

  /** Every event of every page that was fetched is gathered. */
  lemma PagesAreGathered(logs: seq<Reads<Log>>, p: ListParams, events: seq<Event>, offsets: seq<nat>, j: nat, e: Event)
    requires Paged(logs, p, events, offsets) && j + 1 < |offsets|
    requires e in Page(Listing(logs[j].fetched, p), MAX_LIMIT, offsets[j])
    ensures e in events
  {
    hide Listing;
    assert IsPage(logs[j].fetched, p, events, offsets[j], offsets[j + 1]);
    assert e in events[offsets[j]..offsets[j + 1]];
  }

  /** Before call i every initial match is accounted for. */
  ghost predicate Covers(logs: seq<Reads<Log>>, p: ListParams, i: nat, events: seq<Event>) {
    i < |logs| && Persistent(logs, p) ==> Collected(logs[0].counted, p, logs[i].fetched, events, |events|)
  }

  /** Before call i the pages were full: a short one would have stopped the loop. */
  ghost predicate Full(logs: seq<Reads<Log>>, p: ListParams, i: nat, events: seq<Event>) {
    i <= |logs| && (Persistent(logs, p) ==> |events| == MAX_LIMIT * i)
  }

  ghost predicate Sound(logs: seq<Reads<Log>>, p: ListParams, events: seq<Event>) {
    forall e :: e in events ==> exists j :: 0 <= j < |logs| && e in Matching(logs[j].fetched, p)
  }

  /** On an unchanging store, i pages are the first MAX_LIMIT * i events of the listing. */
  ghost predicate Exact(logs: seq<Reads<Log>>, p: ListParams, i: nat, events: seq<Event>) {
    logs != [] && Unchanging(logs) ==>
      && |events| == MAX_LIMIT * i && |events| <= |Listing(logs[0].counted, p)|
      && events == Listing(logs[0].counted, p)[..|events|]
      && (i > 0 ==> |events| < |Listing(logs[0].counted, p)|)
  }

  /** No event that matched at the start is missing. */
  ghost predicate Complete(logs: seq<Reads<Log>>, p: ListParams, events: seq<Event>)
    requires logs != []
  {
    forall e :: e in Matching(logs[0].counted, p) ==> e in events
  }

  /** Every initial match that the last fetch listed beyond the gathered events was gathered earlier. */
  ghost predicate TailGathered(logs: seq<Reads<Log>>, p: ListParams, last: nat, events: seq<Event>)
    requires last < |logs|
  {
    forall k :: |events| <= k < |Listing(logs[last].fetched, p)| && Listing(logs[last].fetched, p)[k] in Matching(logs[0].counted, p) ==>
      Listing(logs[last].fetched, p)[k] in events
  }

  /** No match was committed between the two statements of the call. */
  ghost predicate Quiet(logs: Reads<Log>, p: ListParams) {
    Matching(logs.counted, p) == Matching(logs.fetched, p)
  }

  lemma SoundPage(stores: seq<Reads<Tables>>, logs: seq<Reads<Log>>, p: ListParams, i: nat, events: seq<Event>)
    requires Snapshots(stores, logs) && i < |logs| && Sound(logs, p, events)
    ensures Sound(logs, p, events + Page(Listing(logs[i].fetched, p), MAX_LIMIT, |events|))
  {
    hide Snapshots, Matching, DistinctIds;
    CallReads(stores, logs, i);
    PageMatches(logs[i].fetched, p, |events|);
  }

  lemma ExactPage(logs: seq<Reads<Log>>, p: ListParams, i: nat, events: seq<Event>)
    requires i < |logs| && Exact(logs, p, i, events)
    ensures var listing, page := Listing(logs[i].counted, p), Page(Listing(logs[i].fetched, p), MAX_LIMIT, |events|);
      if page == [] || |events| + |page| >= |listing|
      then Unchanging(logs) ==> events + page == Listing(logs[0].counted, p)
      else Exact(logs, p, i + 1, events + page)
  {
  }

  lemma CoversPage(stores: seq<Reads<Tables>>, logs: seq<Reads<Log>>, p: ListParams, i: nat, events: seq<Event>)
    requires Snapshots(stores, logs) && i < |logs| && Covers(logs, p, i, events)
    ensures var page := Page(Listing(logs[i].fetched, p), MAX_LIMIT, |events|);
      && (Persistent(logs, p) ==> Collected(logs[0].counted, p, logs[i].fetched, events + page, |events + page|))
      && Covers(logs, p, i + 1, events + page)
  {
    hide Snapshots, Collected, Matching, Represents, DistinctIds;
    if Persistent(logs, p) {
      CollectPage(logs[0].counted, p, logs[i].fetched, events, |events|);
      if i + 1 < |logs| {
        CallReads(stores, logs, i);
        CallReads(stores, logs, i + 1);
        EarlierSnapshot(stores, logs, i, i + 1);
        var page := Page(Listing(logs[i].fetched, p), MAX_LIMIT, |events|);
        CollectLater(logs[0].counted, p, logs[i].fetched, logs[i + 1].fetched, events + page, |events + page|);
      }
    }
  }

  /** When the loop stops, what is not gathered stands beyond what is. */
  lemma StopExactly(logs: seq<Reads<Log>>, p: ListParams, last: nat, events: seq<Event>)
    requires last < |logs| && Collected(logs[0].counted, p, logs[last].fetched, events, |events|)
    ensures Complete(logs, p, events) <==> TailGathered(logs, p, last, events)
  {
  }

  lemma QuietStop(stores: seq<Reads<Tables>>, logs: seq<Reads<Log>>, p: ListParams, last: nat, events: seq<Event>)
    requires Snapshots(stores, logs) && last < |logs| && Quiet(logs[last], p)
    requires |events| >= |Listing(logs[last].counted, p)|
    ensures TailGathered(logs, p, last, events)
  {
    hide Snapshots, Matching;
    CallReads(stores, logs, last);
    ListingLists(logs[last].counted, p);
    ListingLists(logs[last].fetched, p);
    DistinctIdsAreUnique(logs[last].fetched);
    EventOrders(Events(logs[last].fetched));
    ListingSize(Listing(logs[last].counted, p), Matching(logs[last].counted, p), NewestFirst);
    ListingSize(Listing(logs[last].fetched, p), Matching(logs[last].fetched, p), NewestFirst);
  }

  lemma FullPage(stores: seq<Reads<Tables>>, logs: seq<Reads<Log>>, p: ListParams, i: nat, events: seq<Event>)
    requires Snapshots(stores, logs) && i < |logs| && Full(logs, p, i, events)
    requires var page := Page(Listing(logs[i].fetched, p), MAX_LIMIT, |events|);
      page != [] && |events| + |page| < |Listing(logs[i].counted, p)|
    ensures Full(logs, p, i + 1, events + Page(Listing(logs[i].fetched, p), MAX_LIMIT, |events|))
  {
    hide Snapshots, Matching, Listing;
    CallReads(stores, logs, i);
    if Persistent(logs, p) {
      ListingLists(logs[i].counted, p);
      ListingLists(logs[i].fetched, p);
      DistinctIdsAreUnique(logs[i].fetched);
      EventOrders(Events(logs[i].fetched));
      ListingSize(Listing(logs[i].counted, p), Matching(logs[i].counted, p), NewestFirst);
      ListingSize(Listing(logs[i].fetched, p), Matching(logs[i].fetched, p), NewestFirst);
      SmallerSet(Matching(logs[i].counted, p), Matching(logs[i].fetched, p));
    }
  }

  lemma {:induction false} SmallerSet(a: set<Event>, b: set<Event>)
    requires a <= b
    ensures |a| <= |b|
  {
    if a != {} {
      var x :| x in a;
      SmallerSet(a - {x}, b - {x});
    }
  }

  /** What one stopping call establishes. */
  ghost predicate Stopped(logs: seq<Reads<Log>>, p: ListParams, last: nat, events: seq<Event>) {
    && last < |logs|
    && (Persistent(logs, p) ==> (Complete(logs, p, events) <==> TailGathered(logs, p, last, events)))
    && (Persistent(logs, p) && |Listing(logs[last].fetched, p)| <= MAX_LIMIT * (last + 1) ==> Complete(logs, p, events))
    && (Persistent(logs, p) && Quiet(logs[last], p) ==> Complete(logs, p, events))
    && (Unchanging(logs) ==> events == Listing(logs[0].counted, p))
  }

  lemma StopAt(stores: seq<Reads<Tables>>, logs: seq<Reads<Log>>, p: ListParams, i: nat, events: seq<Event>)
    requires Snapshots(stores, logs) && i < |logs| && Covers(logs, p, i, events) && Exact(logs, p, i, events) && Full(logs, p, i, events)
    requires var page := Page(Listing(logs[i].fetched, p), MAX_LIMIT, |events|);
      page == [] || |events| + |page| >= |Listing(logs[i].counted, p)|
    ensures Stopped(logs, p, i, events + Page(Listing(logs[i].fetched, p), MAX_LIMIT, |events|))
  {
    hide Snapshots, Covers, Exact, Persistent, Unchanging, Complete, TailGathered, Quiet, Collected, Listing;
    var page := Page(Listing(logs[i].fetched, p), MAX_LIMIT, |events|);
    CoversPage(stores, logs, p, i, events);
    ExactPage(logs, p, i, events);
    if Persistent(logs, p) {
      StopExactly(logs, p, i, events + page);
      if |events + page| >= |Listing(logs[i].fetched, p)| {
        NothingBeyond(logs, p, i, events + page);
      }
      if Quiet(logs[i], p) && |events + page| >= |Listing(logs[i].counted, p)| {
        QuietStop(stores, logs, p, i, events + page);
      }
    }
  }

  lemma NothingBeyond(logs: seq<Reads<Log>>, p: ListParams, i: nat, events: seq<Event>)
    requires i < |logs| && |events| >= |Listing(logs[i].fetched, p)|
    ensures TailGathered(logs, p, i, events)
  {
    hide Listing, Matching;
  }

  lemma Nothing(stores: seq<Reads<Tables>>, logs: seq<Reads<Log>>, p: ListParams)
    requires Snapshots(stores, logs)
    ensures |stores| == |logs|
    ensures Covers(logs, p, 0, []) && Sound(logs, p, []) && Exact(logs, p, 0, []) && Full(logs, p, 0, []) && Paged(logs, p, [], [0])
  {
    hide Matching, Represents, DistinctIds;
    if logs != [] {
      CallReads(stores, logs, 0);
      if Persistent(logs, p) {
        CollectStart(logs[0].counted, logs[0].fetched, p);
      }
    }
  }

  /** listAll, run against what the statements of its page calls see, until it stops
      or they are used up. It gathers every page it fetches and stops at the first
      call that fetched nothing or as much as was counted. A run that stops has
      missed no event that matched at the start exactly when every such event listed
      beyond the gathered ones was gathered earlier; in particular when the last
      listing fits in the pages read, or no match was committed between the count
      and the fetch of the last call. On an unchanging store the run stops and
      returns every matching event exactly once, newest first. */
  method ListAll(stores: seq<Reads<Tables>>, params: ListParams, ghost logs: seq<Reads<Log>>)
    returns (done: bool, events: seq<Event>, last: nat, ghost offsets: seq<nat>)
    requires Snapshots(stores, logs) && params.offset == 0
    ensures RunOf(logs, params, done, events, last, offsets)
    ensures Persistent(logs, params) ==> forall j, e ::
              0 <= j < |logs| && j <= last && e in Page(Listing(logs[j].fetched, params), MAX_LIMIT, MAX_LIMIT * j) ==> e in events
    ensures Sound(logs, params, events)
    ensures done ==> Stopped(logs, params, last, events)
    ensures logs != [] && Unchanging(logs) && |Listing(logs[0].counted, params)| <= MAX_LIMIT * |logs| ==> done
  {
    hide Snapshots, Represents, Sound, Covers, Stopped, DistinctIds, Matching, Listing, Paged, Stops, Full, Exact, Persistent, Unchanging;
    Nothing(stores, logs, params);
    events, last, offsets := [], 0, [0];
    var p := params.(limit := MAX_LIMIT);
    while last < |stores|
      invariant 0 <= last <= |stores|
      invariant p == params.(limit := MAX_LIMIT, offset := |events|)
      invariant Covers(logs, params, last, events) && Sound(logs, params, events) && Exact(logs, params, last, events)
      invariant Full(logs, params, last, events)
      invariant Paged(logs, params, events, offsets) && |offsets| == last + 1
      invariant forall j :: 0 <= j < last ==> !Stops(logs, params, offsets, j)
      invariant Persistent(logs, params) ==> GatheredBelow(logs, params, last, events)
    {
      CallReads(stores, logs, last);
      var result := List(stores[last], p, logs[last]);
      PageDoesNotChangeListing(logs[last].counted, params, MAX_LIMIT, p.offset);
      PageDoesNotChangeListing(logs[last].fetched, params, MAX_LIMIT, p.offset);
      ghost var page := Page(Listing(logs[last].fetched, params), MAX_LIMIT, |events|);
      assert result.events == page;
      SoundPage(stores, logs, params, last, events);
      CoversPage(stores, logs, params, last, events);
      ExactPage(logs, params, last, events);
      PageAppended(logs, params, events, offsets, page);
      GatheredOneMore(logs, params, last, events);
      StopsMeans(logs, params, offsets + [|events + page|], last);
      LastOffset(logs, params, events, offsets);
      if |result.events| == 0 || p.offset + |result.events| >= result.totalCount {
        StopAt(stores, logs, params, last, events);
      } else {
        FullPage(stores, logs, params, last, events);
      }
      events := events + result.events;
      offsets := offsets + [|events|];
      if |result.events| == 0 || p.offset + |result.events| >= result.totalCount {
        UpToLast(logs, params, last, events);
        return true, events, last, offsets;
      }
      p := p.(offset := p.offset + |result.events|);
      last := last + 1;
    }
    done := false;
    UsedUp(logs, params, events);
    if Persistent(logs, params) {
      BelowAll(logs, params, last, events);
    }
  }

  /** Each page of calls before i, at the place a full listing gives it, is gathered. */
  ghost predicate GatheredBelow(logs: seq<Reads<Log>>, p: ListParams, i: nat, events: seq<Event>) {
    forall j, e :: 0 <= j < i && j < |logs| && e in Page(Listing(logs[j].fetched, p), MAX_LIMIT, MAX_LIMIT * j) ==> e in events
  }

  lemma GatheredOneMore(logs: seq<Reads<Log>>, p: ListParams, i: nat, events: seq<Event>)
    requires i < |logs| && Full(logs, p, i, events) && (Persistent(logs, p) ==> GatheredBelow(logs, p, i, events))
    ensures Persistent(logs, p) ==> GatheredBelow(logs, p, i + 1, events + Page(Listing(logs[i].fetched, p), MAX_LIMIT, |events|))
  {
    hide Listing, Persistent;
  }

  lemma UpToLast(logs: seq<Reads<Log>>, p: ListParams, last: nat, events: seq<Event>)
    requires Persistent(logs, p) ==> GatheredBelow(logs, p, last + 1, events)
    ensures Persistent(logs, p) ==> forall j, e ::
              0 <= j < |logs| && j <= last && e in Page(Listing(logs[j].fetched, p), MAX_LIMIT, MAX_LIMIT * j) ==> e in events
  {
    hide Listing, Persistent;
  }

  lemma BelowAll(logs: seq<Reads<Log>>, p: ListParams, last: nat, events: seq<Event>)
    requires last == |logs| && GatheredBelow(logs, p, last, events)
    ensures forall j, e ::
              0 <= j < |logs| && j <= last && e in Page(Listing(logs[j].fetched, p), MAX_LIMIT, MAX_LIMIT * j) ==> e in events
  {
    hide Listing;
  }

  lemma StopsMeans(logs: seq<Reads<Log>>, p: ListParams, offsets: seq<nat>, j: nat)
    requires j < |logs| && j + 1 < |offsets|
    ensures Stops(logs, p, offsets, j) <==> offsets[j] == offsets[j + 1] || offsets[j + 1] >= |Listing(logs[j].counted, p)|
  {
  }

  lemma LastOffset(logs: seq<Reads<Log>>, p: ListParams, events: seq<Event>, offsets: seq<nat>)
    requires Paged(logs, p, events, offsets)
    ensures |offsets| >= 1 && offsets[|offsets| - 1] == |events|
  {
  }

  lemma UsedUp(logs: seq<Reads<Log>>, p: ListParams, events: seq<Event>)
    requires Exact(logs, p, |logs|, events)
    ensures logs != [] && Unchanging(logs) ==> |Listing(logs[0].counted, p)| > MAX_LIMIT * |logs|
  {
  }

  // ----- Commits between the count and the fetch

  function SampleEvent(i: nat): Event {
    Event(seq(i + 1, _ => 'x'), "", "", UserIdentity("ci", "", ""), i * SECOND, "deployment", "", "", [], map[], 0)
  }

  /** Top-level events, one second apart, oldest first. */
  function SampleLog(n: nat): Log {
    seq(n, (i: nat) => Row(i, SampleEvent(i)))
  }

  function SampleTables(n: nat): Tables {
    Tables(seq(n, (i: nat) => Encode(Row(i, SampleEvent(i)))), [])
  }

  const EVERYTHING := ListParams("", None, None, None, None, "", "", false, false, map[], 0, 0)

  lemma SampleIsStored(n: nat)
    ensures Represents(SampleTables(n), SampleLog(n)) && WellFormed(SampleLog(n))
    ensures forall m: nat :: m <= n ==> SampleLog(m) <= SampleLog(n)
  {
    var log := SampleLog(n);
    forall i, j | 0 <= i < j < n ensures log[i].event.id != log[j].event.id {
      assert |log[i].event.id| == i + 1 && |log[j].event.id| == j + 1;
    }
  }

  lemma SampleListing(n: nat)
    ensures |Listing(SampleLog(n), EVERYTHING)| == n
    ensures Matching(SampleLog(n), EVERYTHING) == Events(SampleLog(n))
  {
    var log := SampleLog(n);
    forall e ensures Matches(EVERYTHING, log, e) {
    }
    FilterKeepsAll(EventSeq(log), e => Matches(EVERYTHING, log, e));
  }

  /** The oldest event stands last. */
  lemma OldestStandsLast(n: nat)
    requires n > MAX_LIMIT
    ensures SampleEvent(0) !in Page(Listing(SampleLog(n), EVERYTHING), MAX_LIMIT, 0)
  {
    var log := SampleLog(n);
    var listing := Listing(log, EVERYTHING);
    SampleIsStored(n);
    SampleListing(n);
    ListingLists(log, EVERYTHING);
    DistinctIdsAreUnique(log);
    EventOrders(Events(log));
    var next := listing[MAX_LIMIT];
    assert next in Elements(listing);
    var row :| row in log && row.event == next;
    var j: nat :| j < n && log[j] == row;
    assert next == SampleEvent(j) && !NewestFirst(next, next);
    forall k | 0 <= k < MAX_LIMIT ensures listing[k] != SampleEvent(0) {
      assert NewestFirst(listing[k], next);
    }
  }

  /** MAX_LIMIT events are counted, and a newer one is committed before the fetch. */
  function OvertakenStores(): seq<Reads<Tables>> {
    [Reads(SampleTables(MAX_LIMIT), SampleTables(MAX_LIMIT + 1), SampleTables(MAX_LIMIT + 1))]
  }

  function OvertakenLogs(): seq<Reads<Log>> {
    [Reads(SampleLog(MAX_LIMIT), SampleLog(MAX_LIMIT + 1), SampleLog(MAX_LIMIT + 1))]
  }

  lemma OvertakenIsPossible()
    ensures Snapshots(OvertakenStores(), OvertakenLogs()) && Persistent(OvertakenLogs(), EVERYTHING)
    ensures WellFormed(OvertakenLogs()[0].counted) && WellFormed(OvertakenLogs()[0].fetched)
  {
    hide Represents, WellFormed, SampleLog, SampleTables;
    SampleIsStored(MAX_LIMIT);
    SampleIsStored(MAX_LIMIT + 1);
    assert ReadsOf(OvertakenStores()[0], OvertakenLogs()[0]);
    PlainFiltersPersist(OvertakenStores(), OvertakenLogs(), EVERYTHING);
  }

  /** A full page counted before one more match was committed stops the loop too
      early: the only call stops it, and the fetch has left out the oldest event,
      which matched at the start. */
  lemma CountedBeforeFetchedCanMiss(done: bool, events: seq<Event>, last: nat, offsets: seq<nat>)
    requires RunOf(OvertakenLogs(), EVERYTHING, done, events, last, offsets)
    ensures done && last == 0
    ensures SampleEvent(0) in Matching(OvertakenLogs()[0].counted, EVERYTHING) && SampleEvent(0) !in events
  {
    hide Listing, Matching, SampleLog, SampleEvent;
    var logs := OvertakenLogs();
    SampleListing(MAX_LIMIT);
    SampleListing(MAX_LIMIT + 1);
    OldestStandsLast(MAX_LIMIT + 1);
    OldestIsStored(MAX_LIMIT);
    assert |logs| == 1 && |offsets| == 2;
    assert IsPage(logs[0].fetched, EVERYTHING, events, offsets[0], offsets[1]);
    assert events[0..offsets[1]] == events;
    assert Stops(logs, EVERYTHING, offsets, 0);
  }

  lemma OldestIsStored(n: nat)
    requires n > 0
    ensures SampleEvent(0) in Events(SampleLog(n))
  {
    assert SampleLog(n)[0] in SampleLog(n);
  }
}
