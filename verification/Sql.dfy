/** The tables of the registry and the fragment of SQL its queries use, with
    three-valued logic. */
module Sql {
  import opened Model
  import opened Text

  datatype EventRow = EventRow(
    sequence: nat,
    id: string,
    externalId: Option<string>,
    parentId: Option<string>,
    userName: string,
    userProvider: Option<string>,
    userSubject: Option<string>,
    timestamp: int,
    eventType: string,
    description: string,
    longDescription: string,
    links: seq<EventLink>,
    createdAt: int)

  datatype TagRow = TagRow(eventId: string, key: string, value: string)

  datatype Tables = Tables(events: seq<EventRow>, tags: seq<TagRow>)

  /** An empty Go string is stored as NULL. */
  function Nullable(s: string): Option<string> {
    if s == "" then None else Some(s)
  }

  function FromNullable(s: Option<string>): string {
    if s.Some? then s.value else ""
  }

  function Encode(row: Row): EventRow {
    var e := row.event;
    EventRow(row.sequence, e.id, Nullable(e.externalId), Nullable(e.parentId), e.user.name,
             Nullable(e.user.provider), Nullable(e.user.subject), CanonicalTime(e.timestamp), e.eventType,
             e.description, e.longDescription, e.links, CanonicalTime(e.createdAt))
  }

  /** scanEventFields, with the tags loaded for the event. */
  function Decode(row: EventRow, tags: Tags): Event {
    Event(row.id, FromNullable(row.externalId), FromNullable(row.parentId),
          UserIdentity(row.userName, FromNullable(row.userProvider), FromNullable(row.userSubject)),
          CanonicalTime(row.timestamp), row.eventType, row.description, row.longDescription, row.links, tags,
          CanonicalTime(row.createdAt))
  }

  predicate Canonical(e: Event) {
    e.timestamp % SECOND == 0 && e.createdAt % SECOND == 0
  }

  /** Each column holds its own field, and an empty optional text is NULL. */
  lemma ColumnsExactly(row: Row)
    ensures var e, r := row.event, Encode(row);
      && r.sequence == row.sequence && r.id == e.id && r.eventType == e.eventType && r.userName == e.user.name
      && r.externalId == (if e.externalId == "" then None else Some(e.externalId))
      && r.parentId == (if e.parentId == "" then None else Some(e.parentId))
      && r.userProvider == (if e.user.provider == "" then None else Some(e.user.provider))
      && r.userSubject == (if e.user.subject == "" then None else Some(e.user.subject))
      && r.timestamp == CanonicalTime(e.timestamp) && r.createdAt == CanonicalTime(e.createdAt)
      && r.description == e.description && r.longDescription == e.longDescription && r.links == e.links
  {
  }

  /** Reading back what was written returns the event with both times
      truncated to the second, and nothing else changed. */
  lemma DecodeEncode(row: Row)
    ensures Decode(Encode(row), row.event.tags)
         == row.event.(timestamp := CanonicalTime(row.event.timestamp), createdAt := CanonicalTime(row.event.createdAt))
    ensures Canonical(row.event) ==> Decode(Encode(row), row.event.tags) == row.event
  {
  }

  /** The tables hold the log: one event row per log row, and one tag row per
      entry of an event's tag map. The second tag conjunct is the unique index
      on (event_id, key). */
  ghost predicate Represents(db: Tables, log: Log) {
    && DistinctIds(log)
    && (forall row :: row in log ==> row.event.id != "" && Canonical(row.event))
    && |db.events| == |log|
    && (forall i :: 0 <= i < |log| ==> db.events[i] == Encode(log[i]))
    && (forall i, j :: 0 <= i < j < |db.tags| ==> (db.tags[i].eventId, db.tags[i].key) != (db.tags[j].eventId, db.tags[j].key))
    && (forall t :: t in db.tags ==> Tagged(log, t))
    && (forall row, key :: row in log && key in row.event.tags ==> TagRow(row.event.id, key, row.event.tags[key]) in db.tags)
  }

  ghost predicate Tagged(log: Log, t: TagRow) {
    exists row :: row in log && row.event.id == t.eventId && t.key in row.event.tags && row.event.tags[t.key] == t.value
  }

  lemma RepresentedIds(db: Tables, log: Log)
    requires Represents(db, log)
    ensures DistinctIds(log)
  {
  }

  lemma StoredIsCanonical(db: Tables, log: Log, row: Row)
    requires Represents(db, log) && row in log
    ensures Canonical(row.event) && row.event.id != ""
    ensures Encode(row).timestamp == row.event.timestamp
  {
  }

  lemma SameIdSameRow(log: Log, a: Row, b: Row)
    requires DistinctIds(log) && a in log && b in log && a.event.id == b.event.id
    ensures a == b
  {
    var i :| 0 <= i < |log| && log[i] == a;
    var j :| 0 <= j < |log| && log[j] == b;
    assert !(i < j) && !(j < i);
  }

  /** The tag rows of an event are exactly its tag map. */
  lemma TagRowsOf(db: Tables, log: Log, row: Row, key: string, value: string)
    requires Represents(db, log) && row in log
    ensures TagRow(row.event.id, key, value) in db.tags <==> key in row.event.tags && row.event.tags[key] == value
  {
    if TagRow(row.event.id, key, value) in db.tags {
      assert Tagged(log, TagRow(row.event.id, key, value));
      var owner :| owner in log && owner.event.id == row.event.id && key in owner.event.tags && owner.event.tags[key] == value;
      SameIdSameRow(log, owner, row);
    }
  }

  lemma EncodedRow(db: Tables, log: Log, row: EventRow) returns (source: Row)
    requires Represents(db, log) && row in db.events
    ensures source in log && row == Encode(source)
  {
    var i :| 0 <= i < |db.events| && db.events[i] == row;
    source := log[i];
  }

  lemma EncodedIn(db: Tables, log: Log, row: Row)
    requires Represents(db, log) && row in log
    ensures Encode(row) in db.events
  {
    var i :| 0 <= i < |log| && log[i] == row;
    assert db.events[i] == Encode(row);
  }

  // ----- Values, expressions and three-valued logic

  datatype Value = Text(text: string) | Time(time: int) | Int(number: int)

  datatype Column =
    | Id | ParentId | UserName | EventType | Timestamp
    | TagKey | TagValue
    | Rank | CorrelationKey | CorrelationValue | Team | Scope | Severity

  /** The columns of the row under test; an absent column is NULL. */
  type Env = map<Column, Value>

  datatype Truth = Yes | No | Unknown

  function Truthy(b: bool): Truth {
    if b then Yes else No
  }

  function And(a: Truth, b: Truth): Truth {
    if a == No || b == No then No else if a == Yes && b == Yes then Yes else Unknown
  }

  function Or(a: Truth, b: Truth): Truth {
    if a == Yes || b == Yes then Yes else if a == No && b == No then No else Unknown
  }

  datatype Comparison = Equal | AtLeast | Below

  /** A term; Param(n) is the placeholder $n. */
  datatype Term =
    | Col(column: Column)
    | Param(n: nat)
    | Lit(literal: Value)
    | NullIf(term: Term, unwanted: string)
    | LowerOf(term: Term)

  datatype Pred =
    | Cmp(op: Comparison, left: Term, right: Term)
    | IsNull(term: Term)
    | InParams(term: Term, params: seq<nat>)
    | Either(first: Pred, second: Pred)
    | Both(first: Pred, second: Pred)
    | InActiveAlerts
    | InTagged(tag: Pred, count: Term)

  function EvalTerm(t: Term, env: Env, args: seq<Value>): Option<Value> {
    match t
    case Col(c) => if c in env then Some(env[c]) else None
    case Param(n) => if 1 <= n <= |args| then Some(args[n - 1]) else None
    case Lit(v) => Some(v)
    case NullIf(inner, s) => var v := EvalTerm(inner, env, args); if v == Some(Text(s)) then None else v
    case LowerOf(inner) =>
      var v := EvalTerm(inner, env, args);
      if v.Some? && v.value.Text? then Some(Text(ToLower(v.value.text))) else None
  }

  function Compare(op: Comparison, a: Option<Value>, b: Option<Value>): Truth {
    if a.None? || b.None? then Unknown
    else match op
      case Equal => Truthy(a == b)
      case AtLeast => Truthy(a.value.Time? && b.value.Time? && a.value.time >= b.value.time)
      case Below => Truthy(a.value.Time? && b.value.Time? && a.value.time < b.value.time)
  }

  /** t IN ($n, ...): UNKNOWN when t is NULL. */
  function EvalIn(v: Option<Value>, params: seq<nat>, args: seq<Value>): Truth {
    if params == [] then No
    else Or(Compare(Equal, v, EvalTerm(Param(params[0]), map[], args)), EvalIn(v, params[1..], args))
  }

  function TagEnv(t: TagRow): Env {
    map[TagKey := Text(t.key), TagValue := Text(t.value)]
  }

  predicate AlertTransition(row: EventRow) {
    row.eventType == ALERT.active || row.eventType == ALERT.inactive
  }

  /** The NOT EXISTS subquery: parents whose latest alert transition is an alert. */
  predicate SelectedAsAlerted(db: Tables, id: string) {
    exists meta ::
      && meta in db.events
      && AlertTransition(meta)
      && meta.parentId == Some(id)
      && !(exists newer :: newer in db.events && newer.parentId == meta.parentId && AlertTransition(newer) && newer.sequence > meta.sequence)
      && meta.eventType == ALERT.active
  }

  function EvalPred(p: Pred, env: Env, args: seq<Value>, db: Tables): Truth {
    match p
    case Cmp(op, left, right) => Compare(op, EvalTerm(left, env, args), EvalTerm(right, env, args))
    case IsNull(t) => Truthy(EvalTerm(t, env, args).None?)
    case InParams(t, params) => EvalIn(EvalTerm(t, env, args), params, args)
    case Either(first, second) => Or(EvalPred(first, env, args, db), EvalPred(second, env, args, db))
    case Both(first, second) => And(EvalPred(first, env, args, db), EvalPred(second, env, args, db))
    case InActiveAlerts =>
      if Id in env && env[Id].Text? then Truthy(SelectedAsAlerted(db, env[Id].text)) else Unknown
    case InTagged(tag, count) =>
      // id IN (SELECT event_id FROM tags WHERE tag GROUP BY event_id HAVING COUNT(DISTINCT key) = count)
      if Id in env && env[Id].Text? then
        var keys := set t | t in db.tags && t.eventId == env[Id].text && EvalPred(tag, TagEnv(t), args, db) == Yes :: t.key;
        Truthy(keys != {} && EvalTerm(count, env, args) == Some(Int(|keys|)))
      else Unknown
  }

  /** The conjunction a WHERE clause is built from; no clause at all accepts every row. */
  function EvalAll(clauses: seq<Pred>, env: Env, args: seq<Value>, db: Tables): Truth {
    if clauses == [] then Yes
    else And(EvalAll(clauses[..|clauses| - 1], env, args, db), EvalPred(clauses[|clauses| - 1], env, args, db))
  }

  // ----- Placeholders

  /** Placeholder numbers in the order they appear in the text. */
  function TermParams(t: Term): seq<nat> {
    match t
    case Param(n) => [n]
    case NullIf(inner, _) => TermParams(inner)
    case LowerOf(inner) => TermParams(inner)
    case _ => []
  }

  function PredParams(p: Pred): seq<nat> {
    match p
    case Cmp(_, left, right) => TermParams(left) + TermParams(right)
    case IsNull(t) => TermParams(t)
    case InParams(t, params) => TermParams(t) + params
    case Either(first, second) => PredParams(first) + PredParams(second)
    case Both(first, second) => PredParams(first) + PredParams(second)
    case InActiveAlerts => []
    case InTagged(tag, count) => PredParams(tag) + TermParams(count)
  }

  function AllParams(clauses: seq<Pred>): seq<nat> {
    if clauses == [] then [] else AllParams(clauses[..|clauses| - 1]) + PredParams(clauses[|clauses| - 1])
  }

  /** [from + 1, ..., to] */
  function Numbers(from: nat, to: nat): (r: seq<nat>)
    requires from <= to
    ensures |r| == to - from
    ensures forall i :: 0 <= i < |r| ==> r[i] == from + i + 1
  {
    seq(to - from, i => from + i + 1)
  }

  ghost predicate Bound(params: seq<nat>, args: seq<Value>) {
    forall i :: 0 <= i < |params| ==> 1 <= params[i] <= |args|
  }

  lemma {:induction false} TermExtends(t: Term, env: Env, args: seq<Value>, more: seq<Value>)
    requires Bound(TermParams(t), args)
    ensures EvalTerm(t, env, args + more) == EvalTerm(t, env, args)
  {
    match t
    case Param(n) => assert TermParams(t)[0] == n;
    case NullIf(inner, _) => TermExtends(inner, env, args, more);
    case LowerOf(inner) => TermExtends(inner, env, args, more);
    case _ =>
  }

  lemma {:induction false} InExtends(v: Option<Value>, params: seq<nat>, args: seq<Value>, more: seq<Value>)
    requires Bound(params, args)
    ensures EvalIn(v, params, args + more) == EvalIn(v, params, args)
  {
    if params != [] {
      InExtends(v, params[1..], args, more);
    }
  }

  lemma BoundSplit(a: seq<nat>, b: seq<nat>, args: seq<Value>)
    requires Bound(a + b, args)
    ensures Bound(a, args) && Bound(b, args)
  {
    forall i | 0 <= i < |a| ensures 1 <= a[i] <= |args| { assert (a + b)[i] == a[i]; }
    forall i | 0 <= i < |b| ensures 1 <= b[i] <= |args| { assert (a + b)[|a| + i] == b[i]; }
  }

  /** Arguments bound later do not disturb a clause already written. */
  lemma {:induction false} PredExtends(p: Pred, env: Env, args: seq<Value>, more: seq<Value>, db: Tables)
    requires Bound(PredParams(p), args)
    ensures EvalPred(p, env, args + more, db) == EvalPred(p, env, args, db)
  {
    match p
    case Cmp(_, left, right) =>
      BoundSplit(TermParams(left), TermParams(right), args);
      TermExtends(left, env, args, more);
      TermExtends(right, env, args, more);
    case IsNull(t) => TermExtends(t, env, args, more);
    case InParams(t, params) =>
      BoundSplit(TermParams(t), params, args);
      TermExtends(t, env, args, more);
      InExtends(EvalTerm(t, env, args), params, args, more);
    case Either(first, second) =>
      BoundSplit(PredParams(first), PredParams(second), args);
      PredExtends(first, env, args, more, db);
      PredExtends(second, env, args, more, db);
    case Both(first, second) =>
      BoundSplit(PredParams(first), PredParams(second), args);
      PredExtends(first, env, args, more, db);
      PredExtends(second, env, args, more, db);
    case InActiveAlerts =>
    case InTagged(tag, count) =>
      BoundSplit(PredParams(tag), TermParams(count), args);
      TermExtends(count, env, args, more);
      forall t | t in db.tags ensures EvalPred(tag, TagEnv(t), args + more, db) == EvalPred(tag, TagEnv(t), args, db) {
        PredExtends(tag, TagEnv(t), args, more, db);
      }
      if Id in env && env[Id].Text? {
        assert (set t | t in db.tags && t.eventId == env[Id].text && EvalPred(tag, TagEnv(t), args + more, db) == Yes :: t.key)
            == (set t | t in db.tags && t.eventId == env[Id].text && EvalPred(tag, TagEnv(t), args, db) == Yes :: t.key);
      }
  }

  lemma {:induction false} AllExtend(clauses: seq<Pred>, env: Env, args: seq<Value>, more: seq<Value>, db: Tables)
    requires Bound(AllParams(clauses), args)
    ensures EvalAll(clauses, env, args + more, db) == EvalAll(clauses, env, args, db)
  {
    if clauses != [] {
      var last := |clauses| - 1;
      BoundSplit(AllParams(clauses[..last]), PredParams(clauses[last]), args);
      AllExtend(clauses[..last], env, args, more, db);
      PredExtends(clauses[last], env, args, more, db);
    }
  }

  lemma AppendClause(clauses: seq<Pred>, c: Pred, env: Env, args: seq<Value>, more: seq<Value>, db: Tables)
    requires Bound(AllParams(clauses), args)
    ensures EvalAll(clauses + [c], env, args + more, db) == And(EvalAll(clauses, env, args, db), EvalPred(c, env, args + more, db))
    ensures AllParams(clauses + [c]) == AllParams(clauses) + PredParams(c)
  {
    assert (clauses + [c])[..|clauses|] == clauses;
    AllExtend(clauses, env, args, more, db);
  }
}
