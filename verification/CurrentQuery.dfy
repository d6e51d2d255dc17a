/** ListCurrent: the filters applied after the reduction, the page it returns,
    and the operation state derived from it. */
module CurrentQuery {
  import opened Clauses
  import opened Model
  import opened Ordering
  import opened Operations
  import opened Reduction
  import opened EventList
  import opened Relational
  import opened Sql
  import opened Text

  // ----- The meaning of CurrentParams

  const SITE := "site"

  /** The filters, read on the representative's own tags. A missing tag fails a
      scope or severity filter and passes the team filter. */
  predicate Selected(p: CurrentParams, e: Event) {
    && (p.forTeam != "" ==> Tag(e.tags, "team") == p.forTeam || Tag(e.tags, "team") == "" || Tag(e.tags, "scope") == "site")
    && (p.scopes != [] ==> "scope" in e.tags && e.tags["scope"] in p.scopes)
    && (p.severities != [] ==> "severity" in e.tags && exists s :: s in p.severities && ToLower(e.tags["severity"]) == ToLower(s))
    && (p.eventType != "" ==> e.eventType == p.eventType)
    && (p.correlationKey != "" ==> OperationOf(e).Some? && OperationOf(e).value.key == p.correlationKey)
    && (p.correlationValue != "" ==> OperationOf(e).Some? && OperationOf(e).value.value == p.correlationValue)
  }

  const STAGES: nat := 7

  /** The seven conditions on a joined row, in clause order. */
  predicate RowCondition(stage: nat, p: CurrentParams, r: CurrentRow) {
    match stage
    case 0 => r.active.rank == 1
    case 1 => p.forTeam != "" ==> r.team == Some(p.forTeam) || r.team.None? || r.team == Some("") || r.scope == Some(SITE)
    case 2 => p.scopes != [] ==> r.scope.Some? && r.scope.value in p.scopes
    case 3 => p.severities != [] ==> r.severity.Some? && exists s :: s in p.severities && ToLower(r.severity.value) == ToLower(s)
    case 4 => p.eventType != "" ==> r.event.eventType == p.eventType
    case 5 => p.correlationKey != "" ==> r.active.key == p.correlationKey
    case _ => p.correlationValue != "" ==> r.active.value == p.correlationValue
  }

  predicate RowConditionsBelow(stage: nat, p: CurrentParams, r: CurrentRow) {
    forall k :: 0 <= k < stage ==> RowCondition(k, p, r)
  }

  // ----- Compilation

  function CurrentEnv(r: CurrentRow): Env {
    var env := map[Rank := Int(r.active.rank), EventType := Text(r.event.eventType),
                   CorrelationKey := Text(r.active.key), CorrelationValue := Text(r.active.value)];
    var withTeam := if r.team.Some? then env[Team := Text(r.team.value)] else env;
    var withScope := if r.scope.Some? then withTeam[Scope := Text(r.scope.value)] else withTeam;
    if r.severity.Some? then withScope[Severity := Text(r.severity.value)] else withScope
  }

  const NO_TABLES := Tables([], [])

  predicate Accepted(clauses: seq<Pred>, args: seq<Value>, r: CurrentRow) {
    EvalAll(clauses, CurrentEnv(r), args, NO_TABLES) == Yes
  }

  ghost predicate Every(r: CurrentRow) {
    true
  }

  /** A current query is evaluated on any joined row, whatever NULLs it carries. */
  ghost function CurrentMeaning(p: CurrentParams): Meaning<CurrentRow> {
    Meaning(Every, CurrentEnv, (r: CurrentRow) => NO_TABLES, (stage: nat, r: CurrentRow) => RowCondition(stage, p, r))
  }

  function RankClause(): Pred {
    Cmp(Equal, Col(Rank), Lit(Int(1)))
  }

  function TeamClause(n: nat): Pred {
    Either(Either(Cmp(Equal, Col(Team), Param(n)), IsNull(NullIf(Col(Team), ""))), Cmp(Equal, Col(Scope), Lit(Text(SITE))))
  }

  lemma TeamClauseMeans(p: CurrentParams, args: seq<Value>)
    requires p.forTeam != "" && args != [] && args[|args| - 1] == Text(p.forTeam)
    ensures ClauseMeans(1, CurrentMeaning(p), TeamClause(|args|), args)
  {
    var c := TeamClause(|args|);
    forall r ensures EvalPred(c, CurrentEnv(r), args, NO_TABLES) == Yes <==> RowCondition(1, p, r) {
      var env := CurrentEnv(r);
      var equalTeam := Cmp(Equal, Col(Team), Param(|args|));
      var noTeam := IsNull(NullIf(Col(Team), ""));
      var siteWide := Cmp(Equal, Col(Scope), Lit(Text(SITE)));
      assert EvalPred(equalTeam, env, args, NO_TABLES) == Yes <==> r.team == Some(p.forTeam);
      assert EvalTerm(NullIf(Col(Team), ""), env, args).None? <==> r.team.None? || r.team == Some("");
      assert EvalPred(siteWide, env, args, NO_TABLES) == Yes <==> r.scope == Some(SITE);
      assert EvalPred(noTeam, env, args, NO_TABLES) == Truthy(r.team.None? || r.team == Some(""));
      var ownTeam := Either(equalTeam, noTeam);
      assert EvalPred(ownTeam, env, args, NO_TABLES) == Or(EvalPred(equalTeam, env, args, NO_TABLES), EvalPred(noTeam, env, args, NO_TABLES));
      assert c == Either(ownTeam, siteWide);
      assert EvalPred(c, env, args, NO_TABLES) == Or(EvalPred(ownTeam, env, args, NO_TABLES), EvalPred(siteWide, env, args, NO_TABLES));
    }
  }

  lemma TeamClauseParams(n: nat)
    ensures PredParams(TeamClause(n)) == [n]
  {
    var equalTeam, noTeam, siteWide := Cmp(Equal, Col(Team), Param(n)), IsNull(NullIf(Col(Team), "")), Cmp(Equal, Col(Scope), Lit(Text(SITE)));
    assert PredParams(equalTeam) == [n] && PredParams(noTeam) == [] && PredParams(siteWide) == [];
    assert PredParams(Either(equalTeam, noTeam)) == [n];
  }

  /** IN over freshly bound placeholders is membership, and UNKNOWN never selects. */
  lemma {:induction false} InMeansMember(v: Option<Value>, from: nat, args: seq<Value>, values: seq<string>)
    requires from + |values| <= |args|
    requires forall i :: 0 <= i < |values| ==> args[from + i] == Text(values[i])
    requires v.Some? ==> v.value.Text?
    ensures EvalIn(v, Numbers(from, from + |values|), args) == Yes <==> v.Some? && v.value.text in values
    decreases |values|
  {
    if values != [] {
      var params := Numbers(from, from + |values|);
      assert params[1..] == Numbers(from + 1, from + |values|);
      assert EvalTerm(Param(params[0]), map[], args) == Some(Text(values[0]));
      assert values == [values[0]] + values[1..];
      InMeansMember(v, from + 1, args, values[1..]);
    }
  }

  /** Binds each value of a list and returns its placeholders, in order. */
  method BindAll(values: seq<string>, start: seq<Value>) returns (placeholders: seq<nat>, args: seq<Value>)
    ensures |args| == |start| + |values| && start <= args
    ensures placeholders == Numbers(|start|, |args|)
    ensures forall i :: 0 <= i < |values| ==> args[|start| + i] == Text(values[i])
  {
    placeholders, args := [], start;
    for i := 0 to |values|
      invariant |args| == |start| + i && start <= args
      invariant placeholders == Numbers(|start|, |args|)
      invariant forall k :: 0 <= k < i ==> args[|start| + k] == Text(values[k])
    {
      var n;
      n, args := Bind(args, Text(values[i]));
      placeholders := placeholders + [n];
    }
  }

  function Lowered(values: seq<string>): (r: seq<string>)
    ensures |r| == |values|
    ensures forall i :: 0 <= i < |values| ==> r[i] == ToLower(values[i])
  {
    seq(|values|, i requires 0 <= i < |values| => ToLower(values[i]))
  }

  lemma ScopeClauseMeans(p: CurrentParams, before: seq<Value>, args: seq<Value>)
    requires p.scopes != [] && |args| == |before| + |p.scopes|
    requires forall i :: 0 <= i < |p.scopes| ==> args[|before| + i] == Text(p.scopes[i])
    ensures ClauseMeans(2, CurrentMeaning(p), InParams(Col(Scope), Numbers(|before|, |args|)), args)
  {
    var c := InParams(Col(Scope), Numbers(|before|, |args|));
    forall r ensures EvalPred(c, CurrentEnv(r), args, NO_TABLES) == Yes <==> RowCondition(2, p, r) {
      InMeansMember(EvalTerm(Col(Scope), CurrentEnv(r), args), |before|, args, p.scopes);
    }
  }

  method AddScopes(p: CurrentParams, clauses: seq<Pred>, args: seq<Value>) returns (clauses': seq<Pred>, args': seq<Value>)
    requires Sound(2, CurrentMeaning(p), clauses, args)
    ensures Sound(3, CurrentMeaning(p), clauses', args')
  {
    hide Sound, ClauseMeans, CurrentEnv;
    if |p.scopes| == 0 {
      StageWithoutClause(2, CurrentMeaning(p), clauses, args);
      return clauses, args;
    }
    var placeholders;
    placeholders, args' := BindAll(p.scopes, args);
    ScopeClauseMeans(p, args, args');
    assert args + args'[|args|..] == args';
    StageWithClause(2, CurrentMeaning(p), clauses, args, InParams(Col(Scope), placeholders), args'[|args|..]);
    clauses' := clauses + [InParams(Col(Scope), placeholders)];
  }

  lemma LoweredMember(values: seq<string>, low: string)
    ensures low in Lowered(values) <==> exists s :: s in values && low == ToLower(s)
  {
    if low in Lowered(values) {
      var i :| 0 <= i < |values| && Lowered(values)[i] == low;
      assert values[i] in values;
    }
    if s :| s in values && low == ToLower(s) {
      var i :| 0 <= i < |values| && values[i] == s;
      assert Lowered(values)[i] == low;
    }
  }

  lemma SeverityClauseMeans(p: CurrentParams, before: seq<Value>, args: seq<Value>)
    requires p.severities != [] && |args| == |before| + |p.severities|
    requires forall i :: 0 <= i < |p.severities| ==> args[|before| + i] == Text(Lowered(p.severities)[i])
    ensures ClauseMeans(3, CurrentMeaning(p), InParams(LowerOf(Col(Severity)), Numbers(|before|, |args|)), args)
  {
    hide ToLower;
    var c := InParams(LowerOf(Col(Severity)), Numbers(|before|, |args|));
    forall r ensures EvalPred(c, CurrentEnv(r), args, NO_TABLES) == Yes <==> RowCondition(3, p, r) {
      var v := EvalTerm(LowerOf(Col(Severity)), CurrentEnv(r), args);
      assert EvalTerm(Col(Severity), CurrentEnv(r), args) == if r.severity.Some? then Some(Text(r.severity.value)) else None;
      assert v == if r.severity.Some? then Some(Text(ToLower(r.severity.value))) else None;
      InMeansMember(v, |before|, args, Lowered(p.severities));
      if r.severity.Some? {
        LoweredMember(p.severities, ToLower(r.severity.value));
      }
    }
  }

  method AddSeverities(p: CurrentParams, clauses: seq<Pred>, args: seq<Value>) returns (clauses': seq<Pred>, args': seq<Value>)
    requires Sound(3, CurrentMeaning(p), clauses, args)
    ensures Sound(4, CurrentMeaning(p), clauses', args')
  {
    hide Sound, ClauseMeans, CurrentEnv;
    if |p.severities| == 0 {
      StageWithoutClause(3, CurrentMeaning(p), clauses, args);
      return clauses, args;
    }
    var placeholders;
    placeholders, args' := BindAll(Lowered(p.severities), args);
    SeverityClauseMeans(p, args, args');
    assert args + args'[|args|..] == args';
    StageWithClause(3, CurrentMeaning(p), clauses, args, InParams(LowerOf(Col(Severity)), placeholders), args'[|args|..]);
    clauses' := clauses + [InParams(LowerOf(Col(Severity)), placeholders)];
  }

  lemma TextConditions(p: CurrentParams)
    ensures Compares(4, CurrentMeaning(p), EventType, p.eventType)
    ensures Compares(5, CurrentMeaning(p), CorrelationKey, p.correlationKey)
    ensures Compares(6, CurrentMeaning(p), CorrelationValue, p.correlationValue)
  {
  }

  lemma RankClauseMeans(p: CurrentParams, args: seq<Value>)
    ensures ClauseMeans(0, CurrentMeaning(p), RankClause(), args)
  {
  }

  method AddTeam(p: CurrentParams, clauses: seq<Pred>, args: seq<Value>) returns (clauses': seq<Pred>, args': seq<Value>)
    requires Sound(1, CurrentMeaning(p), clauses, args)
    ensures Sound(2, CurrentMeaning(p), clauses', args')
  {
    hide Sound, ClauseMeans, CurrentEnv;
    if p.forTeam == "" {
      StageWithoutClause(1, CurrentMeaning(p), clauses, args);
      return clauses, args;
    }
    var n;
    n, args' := Bind(args, Text(p.forTeam));
    TeamClauseMeans(p, args');
    TeamClauseParams(n);
    StageWithClause(1, CurrentMeaning(p), clauses, args, TeamClause(n), [Text(p.forTeam)]);
    clauses' := clauses + [TeamClause(n)];
  }

  /** buildCurrentWhereClause: every joined row, whatever NULLs it carries, is
      accepted exactly when it has rank 1 and passes every filter. */
  method BuildCurrentWhereClause(p: CurrentParams) returns (clauses: seq<Pred>, args: seq<Value>)
    ensures AllParams(clauses) == Numbers(0, |args|)
    ensures forall r :: Accepted(clauses, args, r) <==> RowConditionsBelow(STAGES, p, r)
  {
    hide Sound, Compares, ClauseMeans, CurrentMeaning, AllParams, Numbers, Accepted, RowConditionsBelow;
    ghost var m := CurrentMeaning(p);
    clauses, args := [RankClause()], [];
    NoClauses(m);
    RankClauseMeans(p, []);
    RankIsFirst(m);
    clauses, args := AddTeam(p, clauses, args);
    clauses, args := AddScopes(p, clauses, args);
    clauses, args := AddSeverities(p, clauses, args);
    TextConditions(p);
    clauses, args := AddText(4, m, EventType, p.eventType, clauses, args);
    clauses, args := AddText(5, m, CorrelationKey, p.correlationKey, clauses, args);
    clauses, args := AddText(6, m, CorrelationValue, p.correlationValue, clauses, args);
    Compiled(p, clauses, args);
  }

  lemma RankIsFirst(m: Meaning<CurrentRow>)
    requires Sound(0, m, [], []) && ClauseMeans(0, m, RankClause(), [])
    ensures Sound(1, m, [RankClause()], [])
  {
    hide Sound, ClauseMeans;
    var none: seq<Value> := [];
    assert none + [] == none && [] + [RankClause()] == [RankClause()];
    assert PredParams(RankClause()) == Numbers(0, 0);
    StageWithClause(0, m, [], [], RankClause(), []);
  }

  lemma Compiled(p: CurrentParams, clauses: seq<Pred>, args: seq<Value>)
    requires Sound(STAGES, CurrentMeaning(p), clauses, args)
    ensures AllParams(clauses) == Numbers(0, |args|)
    ensures forall r :: Accepted(clauses, args, r) <==> RowConditionsBelow(STAGES, p, r)
  {
    hide AllParams, Numbers, EvalAll, CurrentEnv, RowCondition;
    var m := CurrentMeaning(p);
    forall r ensures Accepted(clauses, args, r) <==> RowConditionsBelow(STAGES, p, r) {
      assert m.stored(r);
      assert Selects(m, clauses, args, r) <==> HoldBelow(STAGES, m, r);
      assert forall k: nat :: m.condition(k, r) <==> RowCondition(k, p, r);
    }
  }

  // ----- The result

  ghost predicate CurrentMatches(log: Log, p: CurrentParams, e: Event) {
    Representative(Events(log), e) && Selected(p, e)
  }

  /** The representatives of the open operations that pass the filters, newest first. */
  ghost function CurrentListing(log: Log, p: CurrentParams): seq<Event> {
    Sort(Filter(EventSeq(log), e => CurrentMatches(log, p, e)), NewestFirst)
  }

  ghost function CurrentMatching(log: Log, p: CurrentParams): set<Event> {
    set e | e in Events(log) && CurrentMatches(log, p, e)
  }

  lemma CurrentListingLists(log: Log, p: CurrentParams)
    requires DistinctIds(log)
    ensures Lists(CurrentListing(log, p), CurrentMatching(log, p), NewestFirst)
    ensures |CurrentListing(log, p)| == |CurrentMatching(log, p)|
  {
    var keep := e => CurrentMatches(log, p, e);
    EventSeqDistinct(log);
    FilterNoDuplicates(EventSeq(log), keep);
    assert Elements(Filter(EventSeq(log), keep)) == CurrentMatching(log, p);
    DistinctIdsAreUnique(log);
    EventOrders(Events(log));
    SortLists(Filter(EventSeq(log), keep), NewestFirst);
    ListingSize(CurrentListing(log, p), CurrentMatching(log, p), NewestFirst);
  }

  lemma SelectedRow(db: Tables, log: Log, p: CurrentParams, row: Row, r: CurrentRow)
    requires Represents(db, log) && CurrentSource(db, log, row, r)
    ensures RowConditionsBelow(STAGES, p, r) <==> CurrentMatches(log, p, row.event)
  {
    hide Represents, Candidates, RowNumber, Ended, Representative;
    RankOne(db, log, row);
    var e := row.event;
    assert RowCondition(0, p, r) <==> Representative(Events(log), e);
    if RowConditionsBelow(STAGES, p, r) {
      assert RowCondition(0, p, r) && RowCondition(1, p, r) && RowCondition(2, p, r) && RowCondition(3, p, r)
          && RowCondition(4, p, r) && RowCondition(5, p, r) && RowCondition(6, p, r);
    }
  }

  function EventColumn(r: CurrentRow): EventRow {
    r.event
  }

  /** The accepted rows, decoded, are the matching representatives, each once. */
  lemma SelectedEvents(db: Tables, log: Log, p: CurrentParams, accept: CurrentRow -> bool, tags: map<string, Tags>)
    requires Represents(db, log)
    requires forall r :: r in CurrentFrom(db) ==> (accept(r) <==> RowConditionsBelow(STAGES, p, r))
    requires forall row :: row in log ==> LoadedTags(tags, row.event.id) == row.event.tags && Canonical(row.event)
    ensures var events := DecodeAll(Project(Filter(CurrentFrom(db), accept), EventColumn), tags);
      NoDuplicates(events) && Elements(events) == CurrentMatching(log, p)
  {
    hide Represents, CurrentFrom, Candidates, RowNumber, Ended, Representative, RowConditionsBelow, Selected, CandidateEvent,
      CurrentMatching, CurrentSource, Filter;
    var rows := CurrentFrom(db);
    var kept := Filter(rows, accept);
    var events := DecodeAll(Project(kept, EventColumn), tags);
    forall i | 0 <= i < |kept| ensures events[i] in CurrentMatching(log, p) && events[i].id == kept[i].event.id {
      assert kept[i] in kept;
      SelectedEvent(db, log, p, kept[i], tags, events[i]);
    }
    KeptDistinct(db, log, accept);
    forall e | e in CurrentMatching(log, p) ensures e in events {
      var i := MatchingIsKept(db, log, p, accept, tags, e);
      assert events[i] == e;
    }
    forall e | e in events ensures e in CurrentMatching(log, p) {
      var i :| 0 <= i < |events| && events[i] == e;
    }
  }

  lemma KeptDistinct(db: Tables, log: Log, accept: CurrentRow -> bool)
    requires Represents(db, log)
    ensures var kept := Filter(CurrentFrom(db), accept);
      forall i, j :: 0 <= i < j < |kept| ==> kept[i].event.id != kept[j].event.id
  {
    hide Represents, CurrentFrom, Filter, CurrentSource, CandidateEvent;
    CurrentRows(db, log);
    var rows := CurrentFrom(db);
    var kept := Filter(rows, accept);
    FilterNoDuplicates(rows, accept);
    forall i, j | 0 <= i < j < |kept| ensures kept[i].event.id != kept[j].event.id {
      assert kept[i] in kept && kept[j] in kept;
      var a :| 0 <= a < |rows| && rows[a] == kept[i];
      var b :| 0 <= b < |rows| && rows[b] == kept[j];
      assert kept[i] != kept[j];
      assert a < b || b < a;
    }
  }

  lemma MatchingIsKept(db: Tables, log: Log, p: CurrentParams, accept: CurrentRow -> bool, tags: map<string, Tags>, e: Event) returns (i: nat)
    requires Represents(db, log) && e in CurrentMatching(log, p)
    requires forall r :: r in CurrentFrom(db) ==> (accept(r) <==> RowConditionsBelow(STAGES, p, r))
    requires forall row :: row in log ==> LoadedTags(tags, row.event.id) == row.event.tags && Canonical(row.event)
    ensures var kept := Filter(CurrentFrom(db), accept);
      i < |kept| && Decode(kept[i].event, LoadedTags(tags, kept[i].event.id)) == e
  {
    hide Represents, CurrentFrom, Candidates, RowNumber, Ended, Representative, RowConditionsBelow, Selected, CandidateEvent, Filter;
    CurrentRows(db, log);
    var rows := CurrentFrom(db);
    var kept := Filter(rows, accept);
    var row :| row in log && row.event == e;
    RepresentativeIsCandidate(log, e);
    var r :| r in rows && CurrentSource(db, log, row, r);
    SelectedRow(db, log, p, row, r);
    assert r in kept;
    i :| 0 <= i < |kept| && kept[i] == r;
    DecodeEncode(row);
  }

  lemma RepresentativeIsCandidate(log: Log, e: Event)
    requires Representative(Events(log), e)
    ensures CandidateEvent(log, e)
  {
  }

  lemma SelectedEvent(db: Tables, log: Log, p: CurrentParams, r: CurrentRow, tags: map<string, Tags>, e: Event)
    requires Represents(db, log) && r in CurrentFrom(db) && RowConditionsBelow(STAGES, p, r)
    requires forall row :: row in log ==> LoadedTags(tags, row.event.id) == row.event.tags && Canonical(row.event)
    requires e == Decode(r.event, LoadedTags(tags, r.event.id))
    ensures e in CurrentMatching(log, p) && e.id == r.event.id
  {
    hide Represents, CurrentFrom, Candidates, RowNumber, Ended, Representative, RowConditionsBelow, Selected;
    CurrentRows(db, log);
    var row :| CurrentSource(db, log, row, r);
    SelectedRow(db, log, p, row, r);
    DecodeEncode(row);
  }

  /** The joined rows a clause selects, with their tags, in listing order. */
  method FetchCurrent(db: Tables, p: CurrentParams, clauses: seq<Pred>, args: seq<Value>, tags: map<string, Tags>, ghost log: Log)
    returns (ordered: seq<Event>)
    requires Represents(db, log)
    requires forall r :: Accepted(clauses, args, r) <==> RowConditionsBelow(STAGES, p, r)
    requires forall row :: row in log ==> LoadedTags(tags, row.event.id) == row.event.tags && Canonical(row.event)
    ensures ordered == CurrentListing(log, p)
  {
    hide CurrentFrom, Represents, LoadedTags, RowConditionsBelow, CurrentListing, CurrentMatching, Accepted, Filter, Canonical;
    var accept := (r: CurrentRow) => Accepted(clauses, args, r);
    SelectedEvents(db, log, p, accept, tags);
    RepresentedIds(db, log);
    var events := DecodeAll(Project(Filter(CurrentFrom(db), accept), EventColumn), tags);
    SameListing(log, p, events);
    ordered := Sort(events, NewestFirst);
  }

  /** The joined rows a clause selects, counted. */
  method CountCurrent(db: Tables, p: CurrentParams, clauses: seq<Pred>, args: seq<Value>, ghost tags: map<string, Tags>, ghost log: Log)
    returns (count: nat)
    requires Represents(db, log)
    requires forall r :: Accepted(clauses, args, r) <==> RowConditionsBelow(STAGES, p, r)
    requires forall row :: row in log ==> LoadedTags(tags, row.event.id) == row.event.tags && Canonical(row.event)
    ensures count == |CurrentListing(log, p)|
  {
    hide CurrentFrom, Represents, LoadedTags, RowConditionsBelow, CurrentListing, CurrentMatching, Accepted, Filter, Canonical;
    var accept := (r: CurrentRow) => Accepted(clauses, args, r);
    SelectedEvents(db, log, p, accept, tags);
    RepresentedIds(db, log);
    SameListing(log, p, DecodeAll(Project(Filter(CurrentFrom(db), accept), EventColumn), tags));
    count := |Filter(CurrentFrom(db), accept)|;
  }

  /** ListCurrent: the whole SQL query, count, page and tags read one after another,
      computes the total and the page of the specification. */
  method ListCurrent(stores: Reads<Tables>, p: CurrentParams, ghost logs: Reads<Log>) returns (r: ListResult)
    requires ReadsOf(stores, logs)
    ensures r.totalCount == |CurrentListing(logs.counted, p)|
    ensures r.events == Page(CurrentListing(logs.fetched, p), EffectiveLimit(p.limit), p.offset)
    ensures r.limit == EffectiveLimit(p.limit) && r.offset == p.offset
    ensures NewestFirstById(r.events)
  {
    hide CurrentFrom, Represents, LoadedTags, RowConditionsBelow, CurrentListing, CurrentMatching, Canonical, Filter;
    var clauses, args := BuildCurrentWhereClause(p);
    var limit := EffectiveLimit(p.limit);
    var limitParam, offsetParam, fetchArgs := BindPage(clauses, args, limit, p.offset);
    var ids := set er | er in stores.fetched.events :: er.id;
    var tags := LoadTags(stores.tagged, ids, logs.tagged);
    TagsLoadedLater(stores.fetched, logs.fetched, logs.tagged, ids, tags);
    TagsOfCounted(stores, logs, tags);

    var total := CountCurrent(stores.counted, p, clauses, args, tags, logs.counted);
    var ordered := FetchCurrent(stores.fetched, p, clauses, fetchArgs, tags, logs.fetched);
    r := ListResult(Page(ordered, fetchArgs[limitParam - 1].number, fetchArgs[offsetParam - 1].number), total, limit, p.offset);
    RepresentedIds(stores.fetched, logs.fetched);
    CurrentListingLists(logs.fetched, p);
    PageIsOrdered(ordered, limit, p.offset);
  }

  lemma TagsOfCounted(stores: Reads<Tables>, logs: Reads<Log>, tags: map<string, Tags>)
    requires ReadsOf(stores, logs)
    requires forall row :: row in logs.fetched ==> LoadedTags(tags, row.event.id) == row.event.tags && Canonical(row.event)
    ensures forall row :: row in logs.counted ==> LoadedTags(tags, row.event.id) == row.event.tags && Canonical(row.event)
  {
    hide Represents, LoadedTags;
    forall row | row in logs.counted ensures row in logs.fetched {
    }
  }

  lemma SameListing(log: Log, p: CurrentParams, events: seq<Event>)
    requires DistinctIds(log)
    requires NoDuplicates(events) && Elements(events) == CurrentMatching(log, p)
    ensures Sort(events, NewestFirst) == CurrentListing(log, p)
  {
    DistinctIdsAreUnique(log);
    EventOrders(Events(log));
    SortLists(events, NewestFirst);
    CurrentListingLists(log, p);
    ListingIsUnique(Sort(events, NewestFirst), CurrentListing(log, p), CurrentMatching(log, p), NewestFirst);
  }

  /** Current depends on which events are stored, not on the order they were
      appended in or on their ingest sequence. */
  lemma AppendOrderIsIrrelevant(log: Log, other: Log, p: CurrentParams)
    requires DistinctIds(log) && DistinctIds(other) && Events(log) == Events(other)
    ensures CurrentListing(log, p) == CurrentListing(other, p)
  {
    CurrentListingLists(log, p);
    CurrentListingLists(other, p);
    DistinctIdsAreUnique(log);
    EventOrders(Events(log));
    assert CurrentMatching(log, p) == CurrentMatching(other, p);
    ListingIsUnique(CurrentListing(log, p), CurrentListing(other, p), CurrentMatching(log, p), NewestFirst);
  }

  // ----- OperationState

  function StateParams(e: Event, key: string, value: string): CurrentParams {
    CurrentParams("", [], [], e.eventType, key, value, 1, 0)
  }

  /** The query OperationState runs matches the representative of that very
      operation: type and correlation filters commute with the reduction. */
  lemma StateQuery(log: Log, start: Event, op: Operation)
    requires DistinctIds(log) && Starts(start, op) && start.eventType != ""
    ensures forall e :: e in CurrentMatching(log, StateParams(start, op.key, op.value)) <==> Represented(Events(log), e, op)
    ensures |CurrentListing(log, StateParams(start, op.key, op.value))| == if Open(Events(log), op) then 1 else 0
  {
    var p := StateParams(start, op.key, op.value);
    var matching := CurrentMatching(log, p);
    IdentityStarts(start, op);
    forall e ensures e in matching <==> Represented(Events(log), e, op) {
    }
    DistinctIdsAreUnique(log);
    OneRowPerOpenOperation(Events(log), op);
    CurrentListingLists(log, p);
    if Open(Events(log), op) {
      var e :| Represented(Events(log), e, op);
      assert matching == {e};
    } else {
      assert matching == {};
    }
  }

  datatype State = NoState | StateOpen | StateClosed

  /** OperationState: a start is open exactly when its operation has a row in the unfiltered Current. */
  method OperationState(stores: Reads<Tables>, event: Event, ghost logs: Reads<Log>) returns (state: State)
    requires ReadsOf(stores, logs)
    ensures state.NoState? <==> OperationIdentity(Some(event)).None?
    ensures event.eventType != "" ==> forall op :: Starts(event, op) ==>
              && (state == StateOpen <==> Open(Events(logs.counted), op))
              && (state == StateOpen <==> exists e :: e in Current(Events(logs.counted)) && OperationOf(e) == Some(op))
  {
    var identity := OperationIdentity(Some(event));
    if identity.None? {
      return NoState;
    }
    var (key, value) := identity.value;
    var result := ListCurrent(stores, StateParams(event, key, value), logs);
    ghost var op := Operation(event.eventType, key, value);
    IdentityStarts(event, op);
    if event.eventType != "" {
      StateQuery(logs.counted, event, op);
      DistinctIdsAreUnique(logs.counted);
      OneRowPerOpenOperation(Events(logs.counted), op);
      if Open(Events(logs.counted), op) {
        var e :| Represented(Events(logs.counted), e, op);
        assert e in Current(Events(logs.counted));
      }
    }
    state := if result.totalCount > 0 then StateOpen else StateClosed;
  }
}
