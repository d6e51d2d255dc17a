/** List queries: what the parameters mean, the WHERE clause compiled from them,
    and the proof that compilation preserves the meaning. */
module Where {
  import opened Clauses
  import opened Model
  import opened Sql

  /** A child of the parent with one of the pair's types; a NULL parent_id is nobody's child. */
  predicate Transition(e: Event, parent: string, pair: Pair) {
    parent != "" && e.parentId == parent && (e.eventType == pair.active || e.eventType == pair.inactive)
  }

  /** The transition of the pair with the largest ingest_sequence activates it. */
  ghost predicate Active(log: Log, parent: string, pair: Pair) {
    exists row ::
      && row in log
      && Transition(row.event, parent, pair)
      && row.event.eventType == pair.active
      && forall newer :: newer in log && Transition(newer.event, parent, pair) ==> newer.sequence <= row.sequence
  }

  // ----- The meaning of ListParams

  predicate Windowed(p: ListParams) {
    p.around.Some? && p.window.Some? && p.window.value > 0
  }

  /** The half-open time range; a window takes precedence over explicit bounds. */
  function LowerBound(p: ListParams): Option<int> {
    if Windowed(p) then Some(CanonicalTime(p.around.value - p.window.value))
    else if p.startAfter.Some? then Some(CanonicalTime(p.startAfter.value))
    else None
  }

  function UpperBound(p: ListParams): Option<int> {
    if Windowed(p) then Some(CanonicalTime(p.around.value + p.window.value))
    else if p.startBefore.Some? then Some(CanonicalTime(p.startBefore.value))
    else None
  }

  predicate HasTags(tags: Tags, wanted: Tags) {
    forall k :: k in wanted ==> k in tags && tags[k] == wanted[k]
  }

  const STAGES: nat := 8

  /** The eight independent conditions of a list query, in clause order. */
  ghost predicate Condition(stage: nat, p: ListParams, log: Log, e: Event) {
    match stage
    case 0 => p.parentId != "" ==> e.parentId == p.parentId
    case 1 => LowerBound(p).Some? ==> e.timestamp >= LowerBound(p).value
    case 2 => UpperBound(p).Some? ==> e.timestamp < UpperBound(p).value
    case 3 => p.userName != "" ==> e.user.name == p.userName
    case 4 => p.eventType != "" ==> e.eventType == p.eventType
    case 5 => p.topLevel ==> e.TopLevel()
    case 6 => p.alertedOnly ==> Active(log, e.id, ALERT)
    case _ => HasTags(e.tags, p.tags)
  }

  /** The meaning of the parameters: all eight conditions. */
  ghost predicate Matches(p: ListParams, log: Log, e: Event) {
    && Condition(0, p, log, e) && Condition(1, p, log, e) && Condition(2, p, log, e) && Condition(3, p, log, e)
    && Condition(4, p, log, e) && Condition(5, p, log, e) && Condition(6, p, log, e) && Condition(7, p, log, e)
  }

  /** The time range, spelled out: a positive window around a time, or else the bounds given. */
  lemma RangeExactly(p: ListParams, log: Log, e: Event)
    ensures p.around.Some? && p.window.Some? && p.window.value > 0 ==>
              (Condition(1, p, log, e) && Condition(2, p, log, e) <==>
                CanonicalTime(p.around.value - p.window.value) <= e.timestamp < CanonicalTime(p.around.value + p.window.value))
    ensures !(p.around.Some? && p.window.Some? && p.window.value > 0) ==>
              (Condition(1, p, log, e) && Condition(2, p, log, e) <==>
                && (p.startAfter.Some? ==> CanonicalTime(p.startAfter.value) <= e.timestamp)
                && (p.startBefore.Some? ==> e.timestamp < CanonicalTime(p.startBefore.value)))
  {
  }

  // ----- Evaluation of a compiled clause on a stored row

  function EventEnv(row: EventRow): Env {
    var env := map[Id := Text(row.id), UserName := Text(row.userName), EventType := Text(row.eventType), Timestamp := Time(row.timestamp)];
    if row.parentId.Some? then env[ParentId := Text(row.parentId.value)] else env
  }

  predicate Accepted(clauses: seq<Pred>, args: seq<Value>, db: Tables, row: EventRow) {
    EvalAll(clauses, EventEnv(row), args, db) == Yes
  }

  datatype Stored = Stored(db: Tables, log: Log, row: Row)

  ghost predicate IsStored(x: Stored) {
    Represents(x.db, x.log) && x.row in x.log
  }

  /** A list query is evaluated on the encoded rows of a represented log. */
  ghost function ListMeaning(p: ListParams): Meaning<Stored> {
    Meaning(IsStored, (x: Stored) => EventEnv(Encode(x.row)), (x: Stored) => x.db,
            (stage: nat, x: Stored) => Condition(stage, p, x.log, x.row.event))
  }

  lemma AllConditionsMatch(p: ListParams, x: Stored)
    ensures HoldBelow(STAGES, ListMeaning(p), x) <==> Matches(p, x.log, x.row.event)
  {
    var m := ListMeaning(p);
    if HoldBelow(STAGES, m, x) {
      assert m.condition(0, x) && m.condition(1, x) && m.condition(2, x) && m.condition(3, x);
      assert m.condition(4, x) && m.condition(5, x) && m.condition(6, x) && m.condition(7, x);
    }
  }

  // ----- The alert subquery

  lemma AlertSubquery(db: Tables, log: Log, id: string)
    requires Represents(db, log) && id != ""
    ensures SelectedAsAlerted(db, id) <==> Active(log, id, ALERT)
  {
    if SelectedAsAlerted(db, id) {
      var meta :|
        && meta in db.events && AlertTransition(meta) && meta.parentId == Some(id)
        && !(exists newer :: newer in db.events && newer.parentId == meta.parentId && AlertTransition(newer) && newer.sequence > meta.sequence)
        && meta.eventType == ALERT.active;
      var row := EncodedRow(db, log, meta);
      forall newer | newer in log && Transition(newer.event, id, ALERT) ensures newer.sequence <= row.sequence {
        EncodedIn(db, log, newer);
        assert AlertTransition(Encode(newer));
      }
      assert Active(log, id, ALERT);
    }
    if Active(log, id, ALERT) {
      var row :| row in log && Transition(row.event, id, ALERT) && row.event.eventType == ALERT.active
                 && forall newer :: newer in log && Transition(newer.event, id, ALERT) ==> newer.sequence <= row.sequence;
      EncodedIn(db, log, row);
      var meta := Encode(row);
      forall newer | newer in db.events && newer.parentId == meta.parentId && AlertTransition(newer) ensures newer.sequence <= meta.sequence {
        var source := EncodedRow(db, log, newer);
        assert Transition(source.event, id, ALERT);
      }
      assert AlertTransition(meta) && meta.parentId == Some(id);
    }
  }

  // ----- The tag subquery

  /** The disjunction accepts a tag row exactly when it is one of the first pairs of the order. */
  ghost predicate TagClauseMeans(tag: Pred, wanted: Tags, keys: set<string>, args: seq<Value>) {
    forall t, db :: EvalPred(tag, TagEnv(t), args, db) == Yes <==> t.key in keys && t.key in wanted && wanted[t.key] == t.value
  }

  /** The keys an event group is left with after the disjunction. */
  function GroupKeys(db: Tables, id: string, tag: Pred, args: seq<Value>): set<string> {
    set t | t in db.tags && t.eventId == id && EvalPred(tag, TagEnv(t), args, db) == Yes :: t.key
  }

  lemma GroupKey(db: Tables, log: Log, row: Row, wanted: Tags, tag: Pred, args: seq<Value>, k: string)
    requires Represents(db, log) && row in log
    requires TagClauseMeans(tag, wanted, wanted.Keys, args)
    ensures k in GroupKeys(db, row.event.id, tag, args) <==> k in wanted && k in row.event.tags && row.event.tags[k] == wanted[k]
  {
    if k in GroupKeys(db, row.event.id, tag, args) {
      var t :| t in db.tags && t.eventId == row.event.id && EvalPred(tag, TagEnv(t), args, db) == Yes && t.key == k;
      assert t == TagRow(row.event.id, k, wanted[k]);
    }
    if k in wanted {
      TagRowsOf(db, log, row, k, wanted[k]);
      var t := TagRow(row.event.id, k, wanted[k]);
      assert EvalPred(tag, TagEnv(t), args, db) == Yes;
    }
  }

  lemma CountMeansAll(keys: set<string>, tags: Tags, wanted: Tags)
    requires wanted != map[]
    requires forall k :: k in keys <==> k in wanted && k in tags && tags[k] == wanted[k]
    ensures (keys != {} && |keys| == |wanted|) <==> HasTags(tags, wanted)
  {
    assert keys <= wanted.Keys;
    assert |wanted.Keys| == |wanted|;
    if |keys| == |wanted| {
      SubsetOfEqualSize(keys, wanted.Keys);
    }
    if HasTags(tags, wanted) {
      assert keys == wanted.Keys;
      var k :| k in wanted;
    }
  }

  lemma SubsetOfEqualSize<T>(a: set<T>, b: set<T>)
    requires a <= b && |a| == |b|
    ensures a == b
  {
    if exists x :: x in b && x !in a {
      var x :| x in b && x !in a;
      assert a <= b - {x};
      SubsetSize(a, b - {x});
    }
  }

  lemma {:induction false} SubsetSize<T>(a: set<T>, b: set<T>)
    requires a <= b
    ensures |a| <= |b|
  {
    if a != {} {
      var x :| x in a;
      SubsetSize(a - {x}, b - {x});
    }
  }

  // ----- The compiler

  function TagPair(keyParam: nat, valueParam: nat): Pred {
    Both(Cmp(Equal, Col(TagKey), Param(keyParam)), Cmp(Equal, Col(TagValue), Param(valueParam)))
  }

  lemma PairMeans(wanted: Tags, k: string, args: seq<Value>)
    requires k in wanted && |args| >= 2
    requires args[|args| - 2] == Text(k) && args[|args| - 1] == Text(wanted[k])
    ensures TagClauseMeans(TagPair(|args| - 1, |args|), wanted, {k}, args)
    ensures PredParams(TagPair(|args| - 1, |args|)) == Numbers(|args| - 2, |args|)
  {
    var c := TagPair(|args| - 1, |args|);
    forall t, db ensures EvalPred(c, TagEnv(t), args, db) == Yes <==> t.key in {k} && t.key in wanted && wanted[t.key] == t.value {
      assert EvalTerm(Col(TagKey), TagEnv(t), args) == Some(Text(t.key));
      assert EvalTerm(Col(TagValue), TagEnv(t), args) == Some(Text(t.value));
    }
  }

  lemma EitherMeans(wanted: Tags, a: Pred, keysA: set<string>, b: Pred, keysB: set<string>, before: seq<Value>, more: seq<Value>)
    requires Bound(PredParams(a), before)
    requires TagClauseMeans(a, wanted, keysA, before)
    requires TagClauseMeans(b, wanted, keysB, before + more)
    ensures TagClauseMeans(Either(a, b), wanted, keysA + keysB, before + more)
  {
    forall t, db
      ensures EvalPred(Either(a, b), TagEnv(t), before + more, db) == Yes
         <==> t.key in keysA + keysB && t.key in wanted && wanted[t.key] == t.value
    {
      PredExtends(a, TagEnv(t), before, more, db);
      assert EvalPred(a, TagEnv(t), before, db) == Yes <==> t.key in keysA && t.key in wanted && wanted[t.key] == t.value;
    }
  }

  /** One more pair: the first stands alone, the others join the disjunction. */
  method AddTagPair(wanted: Tags, done: set<string>, k: string, tag: Pred, start: seq<Value>, args: seq<Value>)
    returns (tag': Pred, args': seq<Value>)
    requires k in wanted && |start| <= |args|
    requires done == {} ==> args == start
    requires done != {} ==> PredParams(tag) == Numbers(|start|, |args|) && TagClauseMeans(tag, wanted, done, args)
    ensures args' == args + [Text(k), Text(wanted[k])]
    ensures PredParams(tag') == Numbers(|start|, |args'|) && TagClauseMeans(tag', wanted, done + {k}, args')
  {
    hide TagClauseMeans, EvalPred;
    var keyParam, valueParam;
    keyParam, args' := Bind(args, Text(k));
    valueParam, args' := Bind(args', Text(wanted[k]));
    assert args' == args + [Text(k), Text(wanted[k])];
    var pairClause := TagPair(keyParam, valueParam);
    PairMeans(wanted, k, args');
    if done == {} {
      assert done + {k} == {k};
      tag' := pairClause;
    } else {
      EitherMeans(wanted, tag, done, pairClause, {k}, args, [Text(k), Text(wanted[k])]);
      tag' := Either(tag, pairClause);
    }
  }

  /** The key/value disjunction over a tag map, in whatever order the map is iterated. */
  method BuildTagClause(wanted: Tags, start: seq<Value>) returns (tag: Pred, args: seq<Value>)
    requires wanted != map[]
    ensures start <= args
    ensures PredParams(tag) == Numbers(|start|, |args|)
    ensures TagClauseMeans(tag, wanted, wanted.Keys, args)
  {
    hide TagClauseMeans, PredParams, Numbers;
    args := start;
    tag := InActiveAlerts;
    var remaining := wanted.Keys;
    var done: set<string> := {};
    while remaining != {}
      invariant done + remaining == wanted.Keys && done !! remaining
      invariant start <= args
      invariant done == {} ==> args == start
      invariant done != {} ==> PredParams(tag) == Numbers(|start|, |args|) && TagClauseMeans(tag, wanted, done, args)
      decreases remaining
    {
      var k :| k in remaining;
      tag, args := AddTagPair(wanted, done, k, tag, start, args);
      done := done + {k};
      remaining := remaining - {k};
    }
    assert done == wanted.Keys;
  }

  lemma TimeClause(stage: nat, p: ListParams, bound: int, args: seq<Value>)
    requires (stage == 1 && LowerBound(p) == Some(bound)) || (stage == 2 && UpperBound(p) == Some(bound))
    requires args != [] && args[|args| - 1] == Time(bound)
    ensures ClauseMeans(stage, ListMeaning(p), Cmp(if stage == 1 then AtLeast else Below, Col(Timestamp), Param(|args|)), args)
  {
    hide Represents, Active;
    var c := Cmp(if stage == 1 then AtLeast else Below, Col(Timestamp), Param(|args|));
    forall x: Stored | IsStored(x)
      ensures EvalPred(c, EventEnv(Encode(x.row)), args, x.db) == Yes <==> Condition(stage, p, x.log, x.row.event)
    {
      StoredIsCanonical(x.db, x.log, x.row);
      assert EvalTerm(Col(Timestamp), EventEnv(Encode(x.row)), args) == Some(Time(x.row.event.timestamp));
    }
  }

  lemma TopLevelClause(p: ListParams, args: seq<Value>)
    requires p.topLevel
    ensures ClauseMeans(5, ListMeaning(p), IsNull(Col(ParentId)), args)
  {
    hide Represents, Active;
  }

  lemma AlertRow(db: Tables, log: Log, row: Row, args: seq<Value>)
    requires Represents(db, log) && row in log
    ensures EvalPred(InActiveAlerts, EventEnv(Encode(row)), args, db) == Yes <==> Active(log, row.event.id, ALERT)
  {
    StoredIsCanonical(db, log, row);
    AlertSubquery(db, log, row.event.id);
    assert EventEnv(Encode(row))[Id] == Text(row.event.id);
  }

  lemma AlertClause(p: ListParams, args: seq<Value>)
    requires p.alertedOnly
    ensures ClauseMeans(6, ListMeaning(p), InActiveAlerts, args)
  {
    hide Represents, Active, EvalPred, EventEnv;
    forall x: Stored | IsStored(x)
      ensures EvalPred(InActiveAlerts, EventEnv(Encode(x.row)), args, x.db) == Yes <==> Condition(6, p, x.log, x.row.event)
    {
      AlertRow(x.db, x.log, x.row, args);
    }
  }

  lemma TagsRow(db: Tables, log: Log, row: Row, wanted: Tags, tag: Pred, args: seq<Value>)
    requires Represents(db, log) && row in log
    requires wanted != map[] && args != [] && args[|args| - 1] == Int(|wanted|)
    requires TagClauseMeans(tag, wanted, wanted.Keys, args)
    ensures EvalPred(InTagged(tag, Param(|args|)), EventEnv(Encode(row)), args, db) == Yes <==> HasTags(row.event.tags, wanted)
  {
    hide Represents, TagClauseMeans, HasTags;
    var keys := GroupKeys(db, row.event.id, tag, args);
    forall k ensures k in keys <==> k in wanted && k in row.event.tags && row.event.tags[k] == wanted[k] {
      GroupKey(db, log, row, wanted, tag, args, k);
    }
    CountMeansAll(keys, row.event.tags, wanted);
    assert EventEnv(Encode(row))[Id] == Text(row.event.id);
  }

  lemma TagsClause(p: ListParams, tag: Pred, args: seq<Value>)
    requires p.tags != map[] && args != [] && args[|args| - 1] == Int(|p.tags|)
    requires TagClauseMeans(tag, p.tags, p.tags.Keys, args)
    ensures ClauseMeans(7, ListMeaning(p), InTagged(tag, Param(|args|)), args)
  {
    hide Represents, Active, EvalPred, EventEnv, TagClauseMeans, HasTags;
    forall x: Stored | IsStored(x)
      ensures EvalPred(InTagged(tag, Param(|args|)), EventEnv(Encode(x.row)), args, x.db) == Yes <==> Condition(7, p, x.log, x.row.event)
    {
      TagsRow(x.db, x.log, x.row, p.tags, tag, args);
    }
  }

  lemma TagClauseExtends(wanted: Tags, tag: Pred, args: seq<Value>, more: seq<Value>)
    requires Bound(PredParams(tag), args) && TagClauseMeans(tag, wanted, wanted.Keys, args)
    ensures TagClauseMeans(tag, wanted, wanted.Keys, args + more)
  {
    forall t, db
      ensures EvalPred(tag, TagEnv(t), args + more, db) == Yes <==> t.key in wanted.Keys && t.key in wanted && wanted[t.key] == t.value
    {
      PredExtends(tag, TagEnv(t), args, more, db);
      assert EvalPred(tag, TagEnv(t), args, db) == Yes <==> t.key in wanted.Keys && t.key in wanted && wanted[t.key] == t.value;
    }
  }

  // Each step appends at most one clause and moves to the next condition.

  lemma TextConditions(p: ListParams)
    ensures Compares(0, ListMeaning(p), ParentId, p.parentId)
    ensures Compares(3, ListMeaning(p), UserName, p.userName)
    ensures Compares(4, ListMeaning(p), EventType, p.eventType)
  {
    hide Represents, Active;
  }

  method AddBound(stage: nat, p: ListParams, bound: Option<int>, clauses: seq<Pred>, args: seq<Value>)
    returns (clauses': seq<Pred>, args': seq<Value>)
    requires (stage == 1 && bound == LowerBound(p)) || (stage == 2 && bound == UpperBound(p))
    requires Sound(stage, ListMeaning(p), clauses, args)
    ensures Sound(stage + 1, ListMeaning(p), clauses', args')
  {
    hide Sound, ClauseMeans, Represents, Active;
    ghost var m := ListMeaning(p);
    if bound.None? {
      StageWithoutClause(stage, m, clauses, args);
      return clauses, args;
    }
    var op := if stage == 1 then AtLeast else Below;
    var n;
    n, args' := Bind(args, Time(bound.value));
    TimeClause(stage, p, bound.value, args');
    StageWithClause(stage, m, clauses, args, Cmp(op, Col(Timestamp), Param(n)), [Time(bound.value)]);
    clauses' := clauses + [Cmp(op, Col(Timestamp), Param(n))];
  }

  method AddFlags(p: ListParams, clauses: seq<Pred>, args: seq<Value>) returns (clauses': seq<Pred>)
    requires Sound(5, ListMeaning(p), clauses, args)
    ensures Sound(7, ListMeaning(p), clauses', args)
  {
    hide Sound, ClauseMeans, Represents, Active;
    ghost var m := ListMeaning(p);
    clauses' := clauses;
    assert args + [] == args;
    if p.topLevel {
      TopLevelClause(p, args);
      StageWithClause(5, m, clauses', args, IsNull(Col(ParentId)), []);
      clauses' := clauses' + [IsNull(Col(ParentId))];
    } else {
      StageWithoutClause(5, m, clauses', args);
    }
    if p.alertedOnly {
      AlertClause(p, args);
      StageWithClause(6, m, clauses', args, InActiveAlerts, []);
      clauses' := clauses' + [InActiveAlerts];
    } else {
      StageWithoutClause(6, m, clauses', args);
    }
  }

  method AddTags(p: ListParams, clauses: seq<Pred>, args: seq<Value>) returns (clauses': seq<Pred>, args': seq<Value>)
    requires Sound(7, ListMeaning(p), clauses, args)
    ensures Sound(8, ListMeaning(p), clauses', args')
  {
    hide Sound, ClauseMeans, Represents, Active, TagClauseMeans;
    ghost var m := ListMeaning(p);
    if |p.tags| == 0 {
      StageWithoutClause(7, m, clauses, args);
      return clauses, args;
    }
    var tag, n;
    tag, args' := BuildTagClause(p.tags, args);
    TagClauseExtends(p.tags, tag, args', [Int(|p.tags|)]);
    ghost var between := |args'|;
    n, args' := Bind(args', Int(|p.tags|));
    TagsClause(p, tag, args');
    assert args + args'[|args|..] == args';
    assert Numbers(|args|, between) + [n] == Numbers(|args|, |args'|);
    StageWithClause(7, m, clauses, args, InTagged(tag, Param(n)), args'[|args|..]);
    clauses' := clauses + [InTagged(tag, Param(n))];
  }

  /** buildWhereClause. On every stored row the compiled clauses, read with the
      argument list, say exactly what the parameters mean; the placeholders of
      the text are $1, $2, ... in order, one for each argument. */
  method BuildWhereClause(p: ListParams) returns (clauses: seq<Pred>, args: seq<Value>)
    ensures AllParams(clauses) == Numbers(0, |args|)
    ensures forall db, log, row :: Represents(db, log) && row in log ==>
              (Accepted(clauses, args, db, Encode(row)) <==> Matches(p, log, row.event))
  {
    hide Sound, Compares, ListMeaning, Represents, Accepted, Matches, AllParams, Numbers;
    ghost var m := ListMeaning(p);
    NoClauses(m);
    TextConditions(p);
    clauses, args := AddText(0, m, ParentId, p.parentId, [], []);

    // Around and window take precedence over the explicit bounds.
    var lower, upper := p.startAfter, p.startBefore;
    if p.around.Some? && p.window.Some? && p.window.value > 0 {
      lower, upper := Some(p.around.value - p.window.value), Some(p.around.value + p.window.value);
    }
    clauses, args := AddBound(1, p, Truncated(lower), clauses, args);
    clauses, args := AddBound(2, p, Truncated(upper), clauses, args);

    clauses, args := AddText(3, m, UserName, p.userName, clauses, args);
    clauses, args := AddText(4, m, EventType, p.eventType, clauses, args);
    clauses := AddFlags(p, clauses, args);
    clauses, args := AddTags(p, clauses, args);
    Compiled(p, clauses, args);
  }

  lemma Compiled(p: ListParams, clauses: seq<Pred>, args: seq<Value>)
    requires Sound(STAGES, ListMeaning(p), clauses, args)
    ensures AllParams(clauses) == Numbers(0, |args|)
    ensures forall db, log, row :: Represents(db, log) && row in log ==>
              (Accepted(clauses, args, db, Encode(row)) <==> Matches(p, log, row.event))
  {
    hide Represents, Matches, EvalAll, EventEnv, HoldBelow, AllParams, Numbers;
    var m := ListMeaning(p);
    forall db, log, row | Represents(db, log) && row in log
      ensures Accepted(clauses, args, db, Encode(row)) <==> Matches(p, log, row.event)
    {
      var x := Stored(db, log, row);
      assert m.stored(x);
      assert Selects(m, clauses, args, x) <==> HoldBelow(STAGES, m, x);
      AllConditionsMatch(p, x);
    }
  }

  function Truncated(t: Option<int>): Option<int> {
    if t.Some? then Some(CanonicalTime(t.value)) else None
  }
}
