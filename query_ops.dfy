/** What each `QuerySet` operation does to the query it clones, as
    functions on `Query` values, and what those changes mean: a filter adds
    a conjunct, a join adds one alias and keeps `data_to_obj` well defined,
    a clone is a copy. The class in `QuerySets` is proved against these. */
module QueryOps {
  import opened Wrappers
  import opened Values
  import opened Dicts
  import opened Schema
  import opened Predicates
  import opened Resolve
  import opened Aggregates
  import opened Compiler
  import opened Slicing
  import opened Rows

  // ---------------------------------------------------------------------------
  // QuerySet._clone and the constructors

  /** The query of `_clone(klass, select, flat)`: `Query.clone`, the
      selected names replaced when `select` is given, `flat` set when true. */
  function ClonedQuery(q: Query, select: Option<seq<string>>, flat: bool): (r: Query)
    ensures r.select == if select.Some? then select.value else q.select
    ensures r.flat == (flat || q.flat)
    ensures FilterShape(q.where.filter) ==> r == q.(select := r.select, flat := r.flat)
  {
    var c := CloneQuery(q);
    assert FilterShape(q.where.filter) ==> c == q by {
      if FilterShape(q.where.filter) {
        CloneQueryIdentity(q);
      }
    }
    c.(select := if select.Some? then select.value else c.select, flat := flat || c.flat)
  }

  /** Whether the class `k` accepts the query: only `ValuesListQuerySet`
      refuses one, a flat query without exactly one selected name. */
  predicate Constructible(k: Mode, q: Query)
  {
    k == ValuesListSet ==> ValuesListFields(q).Ok?
  }

  /** `select_field` as the constructor of class `k` computes it (a plain
      `QuerySet` has none). */
  function SelectField(k: Mode, q: Query): (r: seq<string>)
    requires Constructible(k, q)
    ensures k == ValuesListSet ==> |r| == |q.select| + |q.annotates| && r[..|q.select|] == q.select
    ensures k == ValuesSet && |q.select| > 0 ==> r == q.select + Keys(q.annotates)
  {
    match k
    case PlainSet => []
    case ValuesSet => ValuesFields(q)
    case ValuesListSet => ValuesListFields(q).value
  }

  // ---------------------------------------------------------------------------
  // filter / exclude

  /** `_make_q(Q(*args, **kwargs))` with `negated` set to `negate`. */
  function Condition(args: seq<Child<Operand>>, kwargs: Dict<string, Operand>, negate: bool): Q<Operand>
  {
    MakeQ(New(args, kwargs).(negated := negate))
  }

  /** `clone.query.where._add_q(new_q)`. */
  function Filtered(q: Query, args: seq<Child<Operand>>, kwargs: Dict<string, Operand>, negate: bool): Query
  {
    q.(where := q.where.(filter := AddQ(q.where.filter, Condition(args, kwargs, negate))))
  }

  /** `filter` conjoins the new condition to the old ones and `exclude`
      conjoins its negation; the filter keeps its shape. */
  lemma FilteredEval(q: Query, args: seq<Child<Operand>>, kwargs: Dict<string, Operand>, negate: bool,
                     holds: (string, Operand) -> bool)
    requires FilterShape(q.where.filter)
    ensures FilterShape(Filtered(q, args, kwargs, negate).where.filter)
    ensures Eval(Filtered(q, args, kwargs, negate).where.filter, holds) ==
      (Eval(q.where.filter, holds) && Neg(negate, Eval(New(args, kwargs), holds)))
  {
    AddQEval(q.where.filter, Condition(args, kwargs, negate), holds);
    MakeQEval(New(args, kwargs).(negated := negate), holds);
  }

  /** Filtering twice is filtering once by both conditions. */
  lemma FilterTwice(q: Query, a1: seq<Child<Operand>>, k1: Dict<string, Operand>, n1: bool,
                    a2: seq<Child<Operand>>, k2: Dict<string, Operand>, n2: bool, holds: (string, Operand) -> bool)
    requires FilterShape(q.where.filter)
    ensures Eval(Filtered(Filtered(q, a1, k1, n1), a2, k2, n2).where.filter, holds) ==
      (Eval(q.where.filter, holds) && Neg(n1, Eval(New(a1, k1), holds)) && Neg(n2, Eval(New(a2, k2), holds)))
  {
    FilteredEval(q, a1, k1, n1, holds);
    FilteredEval(Filtered(q, a1, k1, n1), a2, k2, n2, holds);
  }

  // ---------------------------------------------------------------------------
  // order_by, group_by, annotate, slicing

  /** `order_by(*args)`: the washed names replace the ordering. */
  function Ordered(q: Query, fields: seq<string>): Result<Query>
  {
    var w :- FieldWash(q.model, q.joins, fields);
    Ok(q.(orderFields := w))
  }

  /** `group_by(*args)`: the washed names are appended to the grouping. */
  function Grouped(q: Query, fields: seq<string>): Result<Query>
  {
    var w :- FieldWash(q.model, q.joins, fields);
    Ok(q.(groupBy := q.groupBy + w))
  }

  /** The fields the aggregates of `annotate(**kwargs)` name. */
  function AggregateFields(kw: Dict<string, Aggregate>): (r: seq<string>)
    ensures |r| == |kw| && forall i | 0 <= i < |kw| :: r[i] == kw[i].1.field
  {
    seq(|kw|, i requires 0 <= i < |kw| => kw[i].1.field)
  }

  /** `qs[start:stop]` on the query. */
  function Sliced(q: Query, start: Option<int>, stop: Option<int>): Query
  {
    q.(limits := SliceLimits(q.limits, start, stop))
  }

  /** Every query operation above changes only its own part of the query. */
  lemma OperationsKeepModel(q: Query, fields: seq<string>, start: Option<int>, stop: Option<int>)
    ensures Ordered(q, fields).Ok? ==> Ordered(q, fields).value == q.(orderFields := Ordered(q, fields).value.orderFields)
    ensures Grouped(q, fields).Ok? ==> Grouped(q, fields).value.groupBy[..|q.groupBy|] == q.groupBy
    ensures Ordered(q, fields).Ok? <==> Grouped(q, fields).Ok?
    ensures Sliced(q, start, stop).limits.offset.Some?
  {
  }

  // ---------------------------------------------------------------------------
  // join

  /** `zip(keys, values)` of two lists of the same length. */
  function Pairs(keys: seq<string>, vals: seq<string>): (r: seq<(string, string)>)
    requires |keys| == |vals|
    ensures |r| == |keys| && forall i | 0 <= i < |r| :: r[i] == (keys[i], vals[i])
  {
    seq(|keys|, i requires 0 <= i < |keys| => (keys[i], vals[i]))
  }

  /** The alias table while `join` washes its conditions: the new alias
      already present, with no conditions yet. The alias is new, so the
      dictionary assignment appends it. */
  function Pending(q: Query, on: ModelSchema, alias: string): Joins
  {
    q.joins + [(alias, JoinInfo(on, []))]
  }

  /** `join(on, table_as, **kwargs)` on the clone's query: an alias that is
      a field of the model or already an alias is refused; otherwise each
      keyword names a field of this model (or an alias path) and its value a
      field of `on`, and the washed pairs become the join's condition, in the
      query's and in the where node's alias table. The alias is new to the
      query's table, so both assignments to it there leave it last. */
  function Joined(q: Query, on: ModelSchema, alias: string, kw: Dict<string, string>): (r: Result<Query>)
    ensures alias in q.model.fieldList ==>
      r == Err(TypeError("'" + alias + "' is an field for model '" + q.model.name + "'"))
    ensures alias !in q.model.fieldList && alias in Keys(q.joins) ==>
      r == Err(TypeError("alias '" + alias + "' is already exists"))
  {
    if alias in q.model.fieldList then
      Err(TypeError("'" + alias + "' is an field for model '" + q.model.name + "'"))
    else if alias in Keys(q.joins) then
      Err(TypeError("alias '" + alias + "' is already exists"))
    else
      var keys :- FieldWash(q.model, Pending(q, on, alias), Keys(kw));
      var vals :- FieldWash(on, Pending(q, on, alias), Dicts.Values(kw));
      var info := JoinInfo(on, Pairs(keys, vals));
      Ok(q.(joins := q.joins + [(alias, info)], where := q.where.(joins := Put(q.where.joins, alias, info))))
  }

  /** A join on a free alias succeeds exactly when every key washes against
      this model and every value against `on`; the alias then comes last in
      both alias tables with the model `on` and one condition per keyword,
      the `i`-th pairing the washed `i`-th key with the washed `i`-th value,
      and every other alias keeps its entry. */
  lemma JoinedFacts(q: Query, on: ModelSchema, alias: string, kw: Dict<string, string>) returns (info: JoinInfo)
    requires alias !in q.model.fieldList && alias !in Keys(q.joins)
    ensures Joined(q, on, alias, kw).Ok? <==>
      FieldWash(q.model, Pending(q, on, alias), Keys(kw)).Ok? && FieldWash(on, Pending(q, on, alias), Dicts.Values(kw)).Ok?
    ensures Joined(q, on, alias, kw).Ok? ==>
      Joined(q, on, alias, kw).value.joins == q.joins + [(alias, info)] &&
      Get(Joined(q, on, alias, kw).value.where.joins, alias) == Some(info) &&
      info.model == on && |info.on| == |kw| &&
      (forall i | 0 <= i < |kw| ::
        WashOne(q.model, Pending(q, on, alias), kw[i].0) == Ok(info.on[i].0) &&
        WashOne(on, Pending(q, on, alias), kw[i].1) == Ok(info.on[i].1))
    ensures Joined(q, on, alias, kw).Ok? ==>
      forall a | a != alias :: Get(Joined(q, on, alias, kw).value.where.joins, a) == Get(q.where.joins, a)
  {
    var keys := FieldWash(q.model, Pending(q, on, alias), Keys(kw));
    var vals := FieldWash(on, Pending(q, on, alias), Dicts.Values(kw));
    if keys.Ok? && vals.Ok? {
      info := JoinInfo(on, Pairs(keys.value, vals.value));
      forall i | 0 <= i < |kw|
        ensures WashOne(q.model, Pending(q, on, alias), kw[i].0) == Ok(info.on[i].0)
        ensures WashOne(on, Pending(q, on, alias), kw[i].1) == Ok(info.on[i].1)
      {
        WashedAt(q.model, Pending(q, on, alias), Keys(kw), i);
        WashedAt(on, Pending(q, on, alias), Dicts.Values(kw), i);
      }
    } else {
      info := JoinInfo(on, []);
    }
  }

  /** The `i`-th washed name is the `i`-th name washed. */
  lemma WashedAt(model: ModelSchema, joins: Joins, fields: seq<string>, i: nat)
    requires FieldWash(model, joins, fields).Ok? && i < |fields|
    ensures |FieldWash(model, joins, fields).value| == |fields|
    ensures WashOne(model, joins, fields[i]) == Ok(FieldWash(model, joins, fields).value[i])
  {
    var none: seq<string> := [];
    var w := FieldWash(model, joins, fields).value;
    assert WashOne(model, joins, fields[i]) == Ok(w[|none| + i - 0]);
  }

  /** The aliases `data_to_obj` relies on: none repeated and none a field
      of the model. */
  ghost predicate AliasesSound(q: Query)
  {
    (forall i, j | 0 <= i < j < |q.joins| :: q.joins[i].0 != q.joins[j].0) &&
    (forall j | 0 <= j < |q.joins| :: q.joins[j].0 !in q.model.fieldList)
  }

  /** `join` keeps the aliases sound: each new alias is neither a field nor
      an alias already. Together with `Rows.RowToObjectFields` and
      `Rows.RowToObjectJoins`, every row then becomes an instance with its
      own fields and one attribute per alias. */
  lemma JoinedKeepsAliasesSound(q: Query, on: ModelSchema, alias: string, kw: Dict<string, string>)
    requires AliasesSound(q)
    requires Joined(q, on, alias, kw).Ok?
    ensures AliasesSound(Joined(q, on, alias, kw).value)
    ensures Joined(q, on, alias, kw).value.model == q.model
  {
    var info := JoinedFacts(q, on, alias, kw);
    var r := Joined(q, on, alias, kw).value;
    assert r.joins == q.joins + [(alias, info)];
    forall i, j | 0 <= i < j < |r.joins|
      ensures r.joins[i].0 != r.joins[j].0
    {
      if j == |q.joins| {
        assert q.joins[i].0 == Keys(q.joins)[i];
      }
    }
  }

  // ---------------------------------------------------------------------------
  // distinct: the clone made before the names are selected

  /** `distinct(*names)` as written on a plain query set: the values set is
      built (and its `select_field` computed) before `select` is set, so with
      nothing selected or annotated before, `select_field` is every field and
      every joined field, while the statement selects only the names. A row
      of that statement is then too short for `select_field`, and its values
      dictionary fails with `IndexError`. */
  lemma DistinctAsWrittenMisaligned(q: Query, names: seq<string>, js: (string, seq<string>),
                                    cols: seq<string>, row: Row)
    requires q.select == [] && q.annotates == [] && 0 < |names| < |q.model.fieldList|
    requires JoinsFrom(q.model, q.joins, 0, "", []) == Ok(js)
    requires SelectColumns(q.(select := names, distinct := true), js.1) == Ok(cols)
    requires |row| == |cols|
    ensures |cols| == |names|
    ensures ValuesDict(SelectField(ValuesSet, q), row) == Err(IndexError)
  {
    var q2 := q.(select := names, distinct := true);
    ValuesFieldsAlign(q2, js, cols);
    ValuesFromShort(SelectField(ValuesSet, q), row, 0, []);
  }

  /** `distinct(*names)` with the names selected before the values set is
      built: `select_field` is the names and the annotations, one per column
      of the statement, so every row of it becomes a dictionary that maps
      each name to its own column. */
  lemma DistinctAligned(q: Query, names: seq<string>, js: (string, seq<string>), cols: seq<string>, row: Row)
    requires |names| > 0 && Distinct(names + Keys(q.annotates))
    requires JoinsFrom(q.model, q.joins, 0, "", []) == Ok(js)
    requires SelectColumns(q.(select := names, distinct := true), js.1) == Ok(cols)
    requires |row| == |cols|
    ensures ValuesDict(SelectField(ValuesSet, q.(select := names, distinct := true)), row).Ok?
    ensures forall k | 0 <= k < |names| ::
      Get(ValuesDict(SelectField(ValuesSet, q.(select := names, distinct := true)), row).value, names[k]) == Some(row[k])
  {
    var q2 := q.(select := names, distinct := true);
    ValuesFieldsAlign(q2, js, cols);
    var fields := SelectField(ValuesSet, q2);
    assert fields == names + Keys(q.annotates);
    ValuesDictFacts(fields, row);
    assert forall k | 0 <= k < |names| :: fields[k] == names[k];
  }
}
