/** Writing a WHERE clause one condition at a time, with one shared run of
    placeholder numbers and the argument list that goes with them. */
module Clauses {
  import opened Model
  import opened Sql

  /** The rows a query is evaluated on, what their columns hold, and the
      conditions its clauses stand for, in clause order. */
  datatype Meaning<!R> = Meaning(stored: R -> bool, env: R -> Env, tables: R -> Tables, condition: (nat, R) -> bool)

  ghost predicate HoldBelow<R(!new)>(stage: nat, m: Meaning<R>, r: R) {
    forall k :: 0 <= k < stage ==> m.condition(k, r)
  }

  ghost predicate Selects<R(!new)>(m: Meaning<R>, clauses: seq<Pred>, args: seq<Value>, r: R) {
    EvalAll(clauses, m.env(r), args, m.tables(r)) == Yes
  }

  /** The clauses written so far select a row exactly when the first conditions hold
      of it, and their placeholders are $1, $2, ... one for each argument. */
  ghost predicate Sound<R(!new)>(stage: nat, m: Meaning<R>, clauses: seq<Pred>, args: seq<Value>) {
    && AllParams(clauses) == Numbers(0, |args|)
    && forall r :: m.stored(r) ==> (Selects(m, clauses, args, r) <==> HoldBelow(stage, m, r))
  }

  ghost predicate ClauseMeans<R(!new)>(stage: nat, m: Meaning<R>, c: Pred, args: seq<Value>) {
    forall r :: m.stored(r) ==> (EvalPred(c, m.env(r), args, m.tables(r)) == Yes <==> m.condition(stage, r))
  }

  lemma NumbersJoin(middle: nat, to: nat)
    requires middle <= to
    ensures Numbers(0, middle) + Numbers(middle, to) == Numbers(0, to)
  {
  }

  lemma NumbersAreBound(clauses: seq<Pred>, args: seq<Value>)
    requires AllParams(clauses) == Numbers(0, |args|)
    ensures Bound(AllParams(clauses), args)
  {
  }

  lemma NoClauses<R(!new)>(m: Meaning<R>)
    ensures Sound(0, m, [], [])
  {
  }

  lemma StageWithClause<R(!new)>(stage: nat, m: Meaning<R>, clauses: seq<Pred>, args: seq<Value>, c: Pred, more: seq<Value>)
    requires Sound(stage, m, clauses, args)
    requires PredParams(c) == Numbers(|args|, |args| + |more|)
    requires ClauseMeans(stage, m, c, args + more)
    ensures Sound(stage + 1, m, clauses + [c], args + more)
  {
    hide AllParams, PredParams, EvalPred, EvalAll, Numbers, Bound;
    NumbersJoin(|args|, |args| + |more|);
    NumbersAreBound(clauses, args);
    forall r | m.stored(r) ensures Selects(m, clauses + [c], args + more, r) <==> HoldBelow(stage + 1, m, r) {
      AppendClause(clauses, c, m.env(r), args, more, m.tables(r));
      assert Selects(m, clauses, args, r) <==> HoldBelow(stage, m, r);
    }
    AppendClause(clauses, c, map[], args, more, Tables([], []));
  }

  lemma StageWithoutClause<R(!new)>(stage: nat, m: Meaning<R>, clauses: seq<Pred>, args: seq<Value>)
    requires Sound(stage, m, clauses, args)
    requires forall r :: m.stored(r) ==> m.condition(stage, r)
    ensures Sound(stage + 1, m, clauses, args)
  {
    hide AllParams, EvalAll, Numbers;
    forall r | m.stored(r) ensures Selects(m, clauses, args, r) <==> HoldBelow(stage + 1, m, r) {
      assert Selects(m, clauses, args, r) <==> HoldBelow(stage, m, r);
    }
  }

  // ----- The compiler's own steps

  /** bind: appends the value and returns the placeholder naming it. */
  method Bind(args: seq<Value>, value: Value) returns (placeholder: nat, bound: seq<Value>)
    ensures bound == args + [value]
    ensures placeholder == |bound|
    ensures EvalTerm(Param(placeholder), map[], bound) == Some(value)
  {
    bound := args + [value];
    placeholder := |bound|;
  }

  /** The condition compares one column with a value, and an empty text asks for nothing. */
  ghost predicate Compares<R(!new)>(stage: nat, m: Meaning<R>, column: Column, value: string) {
    forall r :: m.stored(r) ==>
      (m.condition(stage, r) <==> value != "" ==> column in m.env(r) && m.env(r)[column] == Text(value))
  }

  lemma TextClause<R(!new)>(stage: nat, m: Meaning<R>, column: Column, value: string, args: seq<Value>)
    requires Compares(stage, m, column, value) && value != ""
    requires args != [] && args[|args| - 1] == Text(value)
    ensures ClauseMeans(stage, m, Cmp(Equal, Col(column), Param(|args|)), args)
    ensures PredParams(Cmp(Equal, Col(column), Param(|args|))) == Numbers(|args| - 1, |args|)
  {
    var c := Cmp(Equal, Col(column), Param(|args|));
    forall r | m.stored(r) ensures EvalPred(c, m.env(r), args, m.tables(r)) == Yes <==> m.condition(stage, r) {
      assert EvalTerm(Param(|args|), m.env(r), args) == Some(Text(value));
    }
  }

  /** Adds `column = $n` for a text that was given. */
  method AddText<R(!new)>(stage: nat, ghost m: Meaning<R>, column: Column, value: string, clauses: seq<Pred>, args: seq<Value>)
    returns (clauses': seq<Pred>, args': seq<Value>)
    requires Sound(stage, m, clauses, args) && Compares(stage, m, column, value)
    ensures Sound(stage + 1, m, clauses', args')
  {
    hide Sound, ClauseMeans;
    if value == "" {
      StageWithoutClause(stage, m, clauses, args);
      return clauses, args;
    }
    var n;
    n, args' := Bind(args, Text(value));
    TextClause(stage, m, column, value, args');
    StageWithClause(stage, m, clauses, args, Cmp(Equal, Col(column), Param(n)), [Text(value)]);
    clauses' := clauses + [Cmp(Equal, Col(column), Param(n))];
  }

  /** LIMIT and OFFSET take the two placeholders after those of the clauses, and
      their arguments do not disturb the clauses. */
  method BindPage(clauses: seq<Pred>, args: seq<Value>, limit: nat, offset: nat)
    returns (limitParam: nat, offsetParam: nat, fetchArgs: seq<Value>)
    requires AllParams(clauses) == Numbers(0, |args|)
    ensures AllParams(clauses) + [limitParam, offsetParam] == Numbers(0, |fetchArgs|)
    ensures EvalTerm(Param(limitParam), map[], fetchArgs) == Some(Int(limit))
    ensures EvalTerm(Param(offsetParam), map[], fetchArgs) == Some(Int(offset))
    ensures forall env, db :: EvalAll(clauses, env, fetchArgs, db) == EvalAll(clauses, env, args, db)
  {
    limitParam, fetchArgs := Bind(args, Int(limit));
    offsetParam, fetchArgs := Bind(fetchArgs, Int(offset));
    assert fetchArgs == args + [Int(limit), Int(offset)];
    NumbersAreBound(clauses, args);
    forall env, db ensures EvalAll(clauses, env, fetchArgs, db) == EvalAll(clauses, env, args, db) {
      AllExtend(clauses, env, args, [Int(limit), Int(offset)], db);
    }
  }
}
