/** `QuerySet`, `ValuesQuerySet` and `ValuesListQuerySet`: a query, the
    rows of its select once fetched, and the operations that clone it with
    one more clause, run it, or read its rows. The three classes are one
    class here with a `mode`; the database is an object whose answers are a
    parameter of the model and which records every statement it is sent. */
module QuerySets {
  import opened Wrappers
  import opened Values
  import opened Dicts
  import opened Schema
  import opened Expressions
  import opened Predicates
  import opened Resolve
  import opened Aggregates
  import opened Compiler
  import opened Slicing
  import opened Rows
  import opened QueryOps

  /** One call of `Database.execute(db_label, sql, params)`. */
  type Call = (string, Statement)

  /** `Database`: the rows a statement returns are whatever `answer` says
      for it, given every statement sent before; each call is logged. */
  class Database {
    var log: seq<Call>
    const answer: (seq<Call>, Call) -> seq<Row>

    constructor(answer: (seq<Call>, Call) -> seq<Row>)
      ensures log == [] && this.answer == answer
    {
      log := [];
      this.answer := answer;
    }

    /** `Database.execute`, with the cursor's rows. */
    method Execute(dbLabel: string, st: Statement) returns (rows: seq<Row>)
      modifies this
      ensures log == old(log) + [(dbLabel, st)]
      ensures rows == answer(old(log), (dbLabel, st))
    {
      rows := answer(log, (dbLabel, st));
      log := log + [(dbLabel, st)];
    }
  }

  /** `(value,) = cursor.fetchone()`: the only column of the first row. */
  function FetchScalar(rows: seq<Row>): (r: Result<Value>)
    ensures r.Ok? <==> |rows| > 0 && |rows[0]| == 1
    ensures r.Ok? ==> r.value == rows[0][0]
  {
    if |rows| == 0 then Err(TypeError("cannot unpack non-iterable NoneType object"))
    else if |rows[0]| > 1 then Err(ValueError("too many values to unpack (expected 1)"))
    else if |rows[0]| == 0 then Err(ValueError("not enough values to unpack (expected 1, got 0)"))
    else Ok(rows[0][0])
  }

  /** The elements `__iter__` yields for the rows from position `i` on,
      after `acc`; the first row that cannot become one stops the loop. */
  function ItemsFrom(mode: Mode, model: ModelSchema, joins: Joins, selectField: seq<string>, flat: bool,
                     rows: seq<Row>, i: nat, acc: seq<Item>): Result<seq<Item>>
    requires i <= |rows|
  {
    MapFrom(row => ToItem(mode, model, joins, selectField, flat, row), rows, i, acc)
  }

  /** The loop succeeds exactly when every remaining row becomes an
      element. */
  lemma ItemsFromOk(mode: Mode, model: ModelSchema, joins: Joins, selectField: seq<string>,
                    flat: bool, rows: seq<Row>, i: nat, acc: seq<Item>)
    requires i <= |rows|
    ensures ItemsFrom(mode, model, joins, selectField, flat, rows, i, acc).Ok? <==>
      forall k | i <= k < |rows| :: ToItem(mode, model, joins, selectField, flat, rows[k]).Ok?
  {
    MapFromOk(row => ToItem(mode, model, joins, selectField, flat, row), rows, i, acc);
  }

  /** On success the loop appends one element per remaining row, in order:
      the element for row `k` sits `k - i` places after what it had. */
  lemma ItemsFromValues(mode: Mode, model: ModelSchema, joins: Joins, selectField: seq<string>,
                        flat: bool, rows: seq<Row>, i: nat, acc: seq<Item>)
    requires i <= |rows|
    requires ItemsFrom(mode, model, joins, selectField, flat, rows, i, acc).Ok?
    ensures |ItemsFrom(mode, model, joins, selectField, flat, rows, i, acc).value| == |acc| + |rows| - i
    ensures ItemsFrom(mode, model, joins, selectField, flat, rows, i, acc).value[..|acc|] == acc
    ensures forall k | i <= k < |rows| ::
      ToItem(mode, model, joins, selectField, flat, rows[k]) ==
        Ok(ItemsFrom(mode, model, joins, selectField, flat, rows, i, acc).value[|acc| + k - i])
  {
    var f := row => ToItem(mode, model, joins, selectField, flat, row);
    MapFromPrefix(f, rows, i, acc);
    MapFromValues(f, rows, i, acc);
  }

  /** On failure the loop raises what one of the remaining rows raises. */
  lemma ItemsFromErr(mode: Mode, model: ModelSchema, joins: Joins, selectField: seq<string>,
                     flat: bool, rows: seq<Row>, i: nat, acc: seq<Item>)
    requires i <= |rows|
    requires ItemsFrom(mode, model, joins, selectField, flat, rows, i, acc).Err?
    ensures exists k | i <= k < |rows| ::
      ToItem(mode, model, joins, selectField, flat, rows[k]) ==
        Err(ItemsFrom(mode, model, joins, selectField, flat, rows, i, acc).error)
  {
    MapFromErr(row => ToItem(mode, model, joins, selectField, flat, row), rows, i, acc);
  }

  class QuerySet {
    const model: ModelSchema
    const mode: Mode
    var query: Query
    /** `select_result`: the rows of the select, once fetched. */
    var selectResult: Option<seq<Row>>
    /** `select_field` of a values or values-list set, fixed when it is built. */
    const selectField: seq<string>
    /** `flat` of a values-list set. */
    const flat: bool

    /** The query belongs to the set's model and its filter is the AND node
        the where clause starts with. */
    ghost predicate Valid()
      reads this
    {
      query.model == model && query.where.model == model && FilterShape(query.where.filter)
    }

    /** The state a set of class `k` is built in from the query `init`,
        whose query has since become `q`. */
    ghost predicate Made(m: ModelSchema, k: Mode, init: Query, q: Query)
      reads this
    {
      Constructible(k, init) && model == m && mode == k && query == q && selectResult == None &&
      selectField == SelectField(k, init) && flat == (k == ValuesListSet && init.flat)
    }

    /** `klass(model=model, query=query)`; `ValuesListQuerySet` refuses a flat
        query without exactly one name, so a caller checks `Constructible`. */
    constructor(m: ModelSchema, k: Mode, q: Query)
      requires Constructible(k, q)
      ensures Made(m, k, q, q)
    {
      model := m;
      mode := k;
      query := q;
      selectResult := None;
      selectField := SelectField(k, q);
      flat := k == ValuesListSet && q.flat;
    }

    /** `QuerySet(model)`: a plain set over a fresh query. */
    constructor Of(m: ModelSchema)
      ensures Made(m, PlainSet, NewQuery(m), NewQuery(m)) && Valid()
    {
      model := m;
      mode := PlainSet;
      query := NewQuery(m);
      selectResult := None;
      selectField := [];
      flat := false;
    }

    /** `_clone(klass, select, flat)`: a new set of class `klass` (this
        set's class when absent) over a copy of the query, which raises
        when a values-list set refuses it. */
    method Clone(klass: Option<Mode>, select: Option<seq<string>>, flatten: bool) returns (r: Result<QuerySet>)
      requires Valid()
      ensures var k := if klass.Some? then klass.value else mode;
        (r.Ok? <==> Constructible(k, ClonedQuery(query, select, flatten))) &&
        (r.Err? ==> r.error == FlatError) &&
        (r.Ok? ==> (fresh(r.value) && r.value.Valid() &&
          r.value.Made(model, k, ClonedQuery(query, select, flatten), ClonedQuery(query, select, flatten))))
    {
      var k := if klass.Some? then klass.value else mode;
      var q := ClonedQuery(query, select, flatten);
      if !Constructible(k, q) {
        return Err(FlatError);
      }
      var qs := new QuerySet(model, k, q);
      return Ok(qs);
    }

    /** `all()`: a copy of this set, without its cached rows. */
    method All() returns (r: Result<QuerySet>)
      requires Valid()
      ensures r.Ok? <==> Constructible(mode, query)
      ensures r.Ok? ==> fresh(r.value) && r.value.Valid() && r.value.Made(model, mode, query, query)
    {
      r := Clone(None, None, false);
    }

    /** `_filter_or_exclude(negate, *args, **kwargs)`: the clone's filter
        gains `Q(*args, **kwargs)`, negated for `exclude`. */
    method FilterOrExclude(negate: bool, args: seq<Child<Operand>>, kwargs: Dict<string, Operand>) returns (r: Result<QuerySet>)
      requires Valid()
      ensures r.Ok? <==> Constructible(mode, query)
      ensures r.Ok? ==> (fresh(r.value) && r.value.Valid() &&
        r.value.Made(model, mode, query, Filtered(query, args, kwargs, negate)))
    {
      r := Clone(None, None, false);
      if r.Ok? {
        var clone := r.value;
        FilteredEval(clone.query, args, kwargs, negate, (k, v) => true);
        clone.query := Filtered(clone.query, args, kwargs, negate);
      }
    }

    /** `filter(*args, **kwargs)`. */
    method Filter(args: seq<Child<Operand>>, kwargs: Dict<string, Operand>) returns (r: Result<QuerySet>)
      requires Valid()
      ensures r.Ok? <==> Constructible(mode, query)
      ensures r.Ok? ==> (fresh(r.value) && r.value.Valid() &&
        r.value.Made(model, mode, query, Filtered(query, args, kwargs, false)))
    {
      r := FilterOrExclude(false, args, kwargs);
    }

    /** `exclude(*args, **kwargs)`. */
    method Exclude(args: seq<Child<Operand>>, kwargs: Dict<string, Operand>) returns (r: Result<QuerySet>)
      requires Valid()
      ensures r.Ok? <==> Constructible(mode, query)
      ensures r.Ok? ==> (fresh(r.value) && r.value.Valid() &&
        r.value.Made(model, mode, query, Filtered(query, args, kwargs, true)))
    {
      r := FilterOrExclude(true, args, kwargs);
    }

    /** `order_by(*args)`: the clone is made first, then the names washed. */
    method OrderBy(fields: seq<string>) returns (r: Result<QuerySet>)
      requires Valid()
      ensures r.Ok? <==> Constructible(mode, query) && Ordered(query, fields).Ok?
      ensures Constructible(mode, query) && Ordered(query, fields).Err? ==> r == Err(Ordered(query, fields).error)
      ensures r.Ok? ==> fresh(r.value) && r.value.Valid() && r.value.Made(model, mode, query, Ordered(query, fields).value)
    {
      r := Clone(None, None, false);
      if r.Ok? {
        var clone := r.value;
        var q := Ordered(query, fields);
        if q.Err? {
          return Err(q.error);
        }
        clone.query := q.value;
      }
    }

    /** `group_by(*args)`: the names washed, then appended to the clone's
        grouping. */
    method GroupBy(fields: seq<string>) returns (r: Result<QuerySet>)
      requires Valid()
      ensures r.Ok? <==> Grouped(query, fields).Ok? && Constructible(mode, query)
      ensures Grouped(query, fields).Err? ==> r == Err(Grouped(query, fields).error)
      ensures r.Ok? ==> fresh(r.value) && r.value.Valid() && r.value.Made(model, mode, query, Grouped(query, fields).value)
    {
      var q := Grouped(query, fields);
      if q.Err? {
        return Err(q.error);
      }
      r := Clone(None, None, false);
      if r.Ok? {
        var clone := r.value;
        clone.query := q.value;
      }
    }

    /** `values(*args)`: a values set selecting the washed names, or the
        same names as before when none are given. */
    method Values(fields: seq<string>) returns (r: Result<QuerySet>)
      requires Valid()
      ensures r.Ok? <==> FieldWash(model, query.joins, fields).Ok?
      ensures r.Err? ==> r == Err(FieldWash(model, query.joins, fields).error)
      ensures r.Ok? ==> (fresh(r.value) && r.value.Valid() &&
        var w := FieldWash(model, query.joins, fields).value;
        var q := ClonedQuery(query, if |w| > 0 then Some(w) else None, false);
        r.value.Made(model, ValuesSet, q, q))
    {
      var w := FieldWash(model, query.joins, fields);
      if w.Err? {
        return Err(w.error);
      }
      r := Clone(Some(ValuesSet), if |w.value| > 0 then Some(w.value) else None, false);
    }

    /** `values_list(*args, flat=flat)`: a flat call with more than one name
        raises; otherwise a values-list set selecting the washed names (or
        the same names as before), which itself refuses a flat query without
        exactly one name. */
    method ValuesList(fields: seq<string>, flatten: bool) returns (r: Result<QuerySet>)
      requires Valid()
      ensures FieldWash(model, query.joins, fields).Err? ==> r == Err(FieldWash(model, query.joins, fields).error)
      ensures FieldWash(model, query.joins, fields).Ok? && flatten && |fields| > 1 ==> r == Err(FlatError)
      ensures r.Ok? <==> (FieldWash(model, query.joins, fields).Ok? && !(flatten && |fields| > 1) &&
        var w := FieldWash(model, query.joins, fields).value;
        Constructible(ValuesListSet, ClonedQuery(query, if |w| > 0 then Some(w) else None, flatten)))
      ensures FieldWash(model, query.joins, fields).Ok? && r.Err? ==> r == Err(FlatError)
      ensures r.Ok? ==> (fresh(r.value) && r.value.Valid() &&
        FieldWash(model, query.joins, fields).Ok? &&
        var w := FieldWash(model, query.joins, fields).value;
        var q := ClonedQuery(query, if |w| > 0 then Some(w) else None, flatten);
        r.value.Made(model, ValuesListSet, q, q) && (flatten ==> |r.value.selectField| == 1 + |q.annotates|))
    {
      var w := FieldWash(model, query.joins, fields);
      if w.Err? {
        return Err(w.error);
      }
      if flatten && |fields| > 1 {
        return Err(FlatError);
      }
      r := Clone(Some(ValuesListSet), if |w.value| > 0 then Some(w.value) else None, flatten);
    }

    /** `annotate(**kwargs)`: the aggregates' fields are washed, then the
        aggregates are added to THIS set's query, and the result is a
        values set selecting the grouped names (none when nothing is grouped). */
    method Annotate(kw: Dict<string, Aggregate>) returns (r: Result<QuerySet>)
      requires Valid()
      modifies this
      ensures Valid() && selectResult == old(selectResult)
      ensures r.Ok? <==> FieldWash(model, old(query).joins, AggregateFields(kw)).Ok?
      ensures r.Err? ==> query == old(query) && r == Err(FieldWash(model, query.joins, AggregateFields(kw)).error)
      ensures r.Ok? ==> query == old(query).(annotates := Dicts.Update(old(query).annotates, kw))
      ensures r.Ok? ==> (fresh(r.value) && r.value.Valid() &&
        r.value.Made(model, ValuesSet, ClonedQuery(query, Some(query.groupBy), false),
                     ClonedQuery(query, Some(query.groupBy), false)))
    {
      var w := FieldWash(model, query.joins, AggregateFields(kw));
      if w.Err? {
        return Err(w.error);
      }
      query := query.(annotates := Dicts.Update(query.annotates, kw));
      r := Clone(Some(ValuesSet), Some(query.groupBy), false);
    }

    /** `distinct(*field_names)` as written: the clone (a values set when a
        plain set is given names) is built before the names are selected, so
        its `select_field` is the one of the query before them. */
    method DistinctAsWritten(names: seq<string>) returns (r: Result<QuerySet>)
      requires Valid()
      ensures var k := if mode == PlainSet && |names| > 0 then ValuesSet else mode;
        var init := ClonedQuery(query, None, false);
        (r.Ok? <==> Constructible(k, init) && (|names| == 0 || FieldWash(model, query.joins, names).Ok?)) &&
        (!Constructible(k, init) ==> r == Err(FlatError)) &&
        (Constructible(k, init) && |names| > 0 && FieldWash(model, query.joins, names).Err? ==>
          r == Err(FieldWash(model, query.joins, names).error)) &&
        (r.Ok? ==> (fresh(r.value) && r.value.Valid() &&
          r.value.Made(model, k, init,
            init.(select := if |names| > 0 then FieldWash(model, query.joins, names).value else init.select,
                  distinct := true))))
    {
      var k := if mode == PlainSet && |names| > 0 then ValuesSet else mode;
      r := Clone(Some(k), None, false);
      if r.Ok? {
        var clone := r.value;
        if |names| > 0 {
          var w := FieldWash(model, query.joins, names);
          if w.Err? {
            return Err(w.error);
          }
          clone.query := clone.query.(select := w.value);
        }
        clone.query := clone.query.(distinct := true);
      }
    }

    /** `distinct(*field_names)` with the names selected when the clone is
        built, so that its `select_field` names the columns the statement
        selects (see `QueryOps.DistinctAligned`). */
    method Distinct(names: seq<string>) returns (r: Result<QuerySet>)
      requires Valid()
      ensures var k := if mode == PlainSet && |names| > 0 then ValuesSet else mode;
        var washed := |names| == 0 || FieldWash(model, query.joins, names).Ok?;
        (r.Ok? <==> (washed &&
          Constructible(k, ClonedQuery(query, if |names| > 0 then Some(FieldWash(model, query.joins, names).value) else None, false)))) &&
        (washed && r.Err? ==> r == Err(FlatError)) &&
        (|names| > 0 && FieldWash(model, query.joins, names).Err? ==> r == Err(FieldWash(model, query.joins, names).error)) &&
        (r.Ok? ==> (fresh(r.value) && r.value.Valid() &&
          var init := ClonedQuery(query, if |names| > 0 then Some(FieldWash(model, query.joins, names).value) else None, false);
          r.value.Made(model, k, init, init.(distinct := true)) &&
          (|names| > 0 && k == ValuesSet ==> r.value.selectField == FieldWash(model, query.joins, names).value + Keys(query.annotates))))
    {
      var k := if mode == PlainSet && |names| > 0 then ValuesSet else mode;
      var select: Option<seq<string>> := None;
      if |names| > 0 {
        var w := FieldWash(model, query.joins, names);
        if w.Err? {
          return Err(w.error);
        }
        select := Some(w.value);
      }
      r := Clone(Some(k), select, false);
      if r.Ok? {
        var clone := r.value;
        clone.query := clone.query.(distinct := true);
      }
    }

    /** `join(on, table_as, **kwargs)`: the clone is made first; an alias
        that is a field or already an alias raises; the conditions are
        washed and the join added to both alias tables. The clone's
        `select_field` is the one of the query before the join. */
    method Join(on: ModelSchema, alias: string, kw: Dict<string, string>) returns (r: Result<QuerySet>)
      requires Valid()
      ensures r.Ok? <==> Constructible(mode, query) && Joined(query, on, alias, kw).Ok?
      ensures Constructible(mode, query) && Joined(query, on, alias, kw).Err? ==>
        r == Err(Joined(query, on, alias, kw).error)
      ensures r.Ok? ==> (fresh(r.value) && r.value.Valid() &&
        r.value.Made(model, mode, query, Joined(query, on, alias, kw).value))
    {
      r := Clone(None, None, false);
      if r.Ok? {
        var clone := r.value;
        var q := Joined(query, on, alias, kw);
        if q.Err? {
          return Err(q.error);
        }
        clone.query := q.value;
      }
    }

    /** `qs[start:stop]`: a clone whose limits are moved into the window. */
    method Slice(start: Option<int>, stop: Option<int>) returns (r: Result<QuerySet>)
      requires Valid()
      ensures r.Ok? <==> Constructible(mode, query)
      ensures r.Err? ==> r.error == FlatError
      ensures r.Ok? ==> fresh(r.value) && r.value.Valid() && r.value.Made(model, mode, query, Sliced(query, start, stop))
    {
      r := Clone(None, None, false);
      if r.Ok? {
        var clone := r.value;
        clone.query := Sliced(clone.query, start, stop);
      }
    }

    /** `select()`: the select runs once; its rows are kept and returned
        again on every later call, without a statement. */
    method Select(db: Database) returns (r: Result<seq<Row>>)
      requires Valid()
      modifies this, db
      ensures query == old(query) && Valid()
      ensures old(selectResult).Some? ==>
        r == Ok(old(selectResult).value) && selectResult == old(selectResult) && db.log == old(db.log)
      ensures old(selectResult).None? && CompileQuery(query, SelectSql).Err? ==>
        r == Err(CompileQuery(query, SelectSql).error) && selectResult == None && db.log == old(db.log)
      ensures old(selectResult).None? && CompileQuery(query, SelectSql).Ok? ==>
        var call := (model.dbLabel, CompileQuery(query, SelectSql).value);
        db.log == old(db.log) + [call] && r == Ok(db.answer(old(db.log), call)) && selectResult == Some(r.value)
    {
      if selectResult.Some? {
        return Ok(selectResult.value);
      }
      var st := CompileQuery(query, SelectSql);
      if st.Err? {
        return Err(st.error);
      }
      var rows := db.Execute(model.dbLabel, st.value);
      selectResult := Some(rows);
      return Ok(rows);
    }

    /** `count()`: the number of cached rows, or the answer of the count
        statement. */
    method Count(db: Database) returns (r: Result<Value>)
      requires Valid()
      modifies db
      ensures selectResult.Some? ==> r == Ok(PyInt(|selectResult.value|)) && db.log == old(db.log)
      ensures selectResult.None? && CompileQuery(query, CountSql).Err? ==>
        r == Err(CompileQuery(query, CountSql).error) && db.log == old(db.log)
      ensures selectResult.None? && CompileQuery(query, CountSql).Ok? ==>
        var call := (model.dbLabel, CompileQuery(query, CountSql).value);
        db.log == old(db.log) + [call] && r == FetchScalar(db.answer(old(db.log), call))
    {
      if selectResult.Some? {
        return Ok(PyInt(|selectResult.value|));
      }
      var st := CompileQuery(query, CountSql);
      if st.Err? {
        return Err(st.error);
      }
      var rows := db.Execute(model.dbLabel, st.value);
      r := FetchScalar(rows);
    }

    /** `update(**kwargs)`: nothing without keywords; otherwise the keys
        washed against the model alone and one update statement sent. */
    method Update(db: Database, kw: Dict<string, Term>) returns (r: Result<()>)
      requires Valid()
      modifies db
      ensures |kw| == 0 ==> r == Ok(()) && db.log == old(db.log)
      ensures |kw| > 0 && FieldWashDict(model, [], kw).Err? ==>
        r == Err(FieldWashDict(model, [], kw).error) && db.log == old(db.log)
      ensures |kw| > 0 && FieldWashDict(model, [], kw).Ok? ==>
        var st := CompileQuery(query, UpdateSql(FieldWashDict(model, [], kw).value));
        (st.Err? ==> r == Err(st.error) && db.log == old(db.log)) &&
        (st.Ok? ==> r == Ok(()) && db.log == old(db.log) + [(model.dbLabel, st.value)])
    {
      if |kw| == 0 {
        return Ok(());
      }
      var d := FieldWashDict(model, [], kw);
      if d.Err? {
        return Err(d.error);
      }
      var st := CompileQuery(query, UpdateSql(d.value));
      if st.Err? {
        return Err(st.error);
      }
      var _ := db.Execute(model.dbLabel, st.value);
      return Ok(());
    }

    /** `delete()`: one delete statement sent. */
    method Delete(db: Database) returns (r: Result<()>)
      requires Valid()
      modifies db
      ensures CompileQuery(query, DeleteSql).Err? ==> r == Err(CompileQuery(query, DeleteSql).error) && db.log == old(db.log)
      ensures CompileQuery(query, DeleteSql).Ok? ==>
        r == Ok(()) && db.log == old(db.log) + [(model.dbLabel, CompileQuery(query, DeleteSql).value)]
    {
      var st := CompileQuery(query, DeleteSql);
      if st.Err? {
        return Err(st.error);
      }
      var _ := db.Execute(model.dbLabel, st.value);
      return Ok(());
    }

    /** The statement `base_index` sends without cached rows: the select
        of `self[index:index + 1]`. */
    function IndexStatement(index: nat): Result<Statement>
      reads this
    {
      CompileQuery(Sliced(query, Some(index), Some(index + 1)), SelectSql)
    }

    /** What `base_index(index)` returns when the database answers with
        `answer` after the calls `log`: the cached row at `index`, or else the
        first row of the select of `self[index:index + 1]`; `IndexError`
        when there is no such row. */
    function BaseRow(answer: (seq<Call>, Call) -> seq<Row>, log: seq<Call>, index: nat): Result<Row>
      reads this
    {
      if selectResult.Some? then
        if index < |selectResult.value| then Ok(selectResult.value[index]) else Err(IndexError)
      else if !Constructible(mode, query) then Err(FlatError)
      else
        var st :- IndexStatement(index);
        var rows := answer(log, (model.dbLabel, st));
        if |rows| > 0 then Ok(rows[0]) else Err(IndexError)
    }

    /** The calls `base_index(index)` makes: none with cached rows, else the
        one select when it compiles. */
    function IndexCalls(index: nat): seq<Call>
      reads this
    {
      if selectResult.Some? || !Constructible(mode, query) || IndexStatement(index).Err? then []
      else [(model.dbLabel, IndexStatement(index).value)]
    }

    /** `base_index(index)`. */
    method BaseIndex(db: Database, index: nat) returns (r: Result<Row>)
      requires Valid()
      modifies db
      ensures r == BaseRow(db.answer, old(db.log), index)
      ensures db.log == old(db.log) + IndexCalls(index)
    {
      if selectResult.Some? {
        if index < |selectResult.value| {
          return Ok(selectResult.value[index]);
        }
        return Err(IndexError);
      }
      var sliced := Slice(Some(index), Some(index + 1));
      if sliced.Err? {
        return Err(sliced.error);
      }
      var rows := sliced.value.Select(db);
      if rows.Err? {
        return Err(rows.error);
      }
      if |rows.value| == 0 {
        return Err(IndexError);
      }
      return Ok(rows.value[0]);
    }

    /** What this set makes of one row: `data_to_obj`, the values
        dictionary, or the row (its first column when flat). */
    function ItemOf(row: Row): Result<Item>
      reads this
    {
      ToItem(mode, model, query.joins, selectField, flat, row)
    }

    /** What `get_index(index)` returns: the element for the row
        `base_index` finds. */
    function ItemAt(answer: (seq<Call>, Call) -> seq<Row>, log: seq<Call>, index: nat): Result<Item>
      reads this
    {
      var row :- BaseRow(answer, log, index);
      ItemOf(row)
    }

    /** What `first()` returns: None when the element at 0 raises
        `IndexError`, whichever step raised it. */
    function FirstItem(answer: (seq<Call>, Call) -> seq<Row>, log: seq<Call>): (r: Result<Option<Item>>)
      reads this
      ensures r == Ok(None) <==> ItemAt(answer, log, 0) == Err(IndexError)
      ensures r.Err? <==> ItemAt(answer, log, 0).Err? && ItemAt(answer, log, 0) != Err(IndexError)
      ensures r.Ok? && r.value.Some? ==> ItemAt(answer, log, 0) == Ok(r.value.value)
    {
      match ItemAt(answer, log, 0)
      case Err(e) => if e == IndexError then Ok(None) else Err(e)
      case Ok(item) => Ok(Some(item))
    }

    /** `get_index(index)`. */
    method GetIndex(db: Database, index: nat) returns (r: Result<Item>)
      requires Valid()
      modifies db
      ensures r == ItemAt(db.answer, old(db.log), index)
      ensures db.log == old(db.log) + IndexCalls(index)
    {
      var row := BaseIndex(db, index);
      if row.Err? {
        return Err(row.error);
      }
      r := ItemOf(row.value);
    }

    /** `qs[index]`: a negative index raises; any other is `get_index`. */
    method Index(db: Database, index: int) returns (r: Result<Item>)
      requires Valid()
      modifies db
      ensures index < 0 ==> r == Err(TypeError("Negative indexing is not supported.")) && db.log == old(db.log)
      ensures index >= 0 ==> r == ItemAt(db.answer, old(db.log), index) && db.log == old(db.log) + IndexCalls(index)
    {
      if index < 0 {
        return Err(TypeError("Negative indexing is not supported."));
      }
      r := GetIndex(db, index);
    }

    /** `first()`. */
    method First(db: Database) returns (r: Result<Option<Item>>)
      requires Valid()
      modifies db
      ensures r == FirstItem(db.answer, old(db.log))
      ensures db.log == old(db.log) + IndexCalls(0)
    {
      var item := GetIndex(db, 0);
      if item.Err? {
        if item.error == IndexError {
          return Ok(None);
        }
        return Err(item.error);
      }
      return Ok(Some(item.value));
    }

    /** `exists()` (and `__bool__`): whether `first()` is a true value. */
    method Exists(db: Database) returns (r: Result<bool>)
      requires Valid()
      modifies db
      ensures FirstItem(db.answer, old(db.log)).Err? ==> r == Err(FirstItem(db.answer, old(db.log)).error)
      ensures FirstItem(db.answer, old(db.log)).Ok? ==>
        r == Ok(FirstItem(db.answer, old(db.log)).value.Some? &&
                ItemTruthy(FirstItem(db.answer, old(db.log)).value.value))
      ensures db.log == old(db.log) + IndexCalls(0)
    {
      var first := First(db);
      if first.Err? {
        return Err(first.error);
      }
      return Ok(first.value.Some? && ItemTruthy(first.value.value));
    }

    /** `list(qs)` through `__iter__`: the select (run once), then one
        element per row, in order, the first failing row raising. */
    method Iterate(db: Database) returns (r: Result<seq<Item>>)
      requires Valid()
      modifies this, db
      ensures query == old(query) && Valid()
      ensures old(selectResult).Some? ==> db.log == old(db.log) && selectResult == old(selectResult)
      ensures old(selectResult).None? && CompileQuery(query, SelectSql).Err? ==>
        r == Err(CompileQuery(query, SelectSql).error) && selectResult == None && db.log == old(db.log)
      ensures old(selectResult).None? && CompileQuery(query, SelectSql).Ok? ==>
        var call := (model.dbLabel, CompileQuery(query, SelectSql).value);
        db.log == old(db.log) + [call] && selectResult == Some(db.answer(old(db.log), call))
      ensures selectResult.Some? ==>
        r == ItemsFrom(mode, model, query.joins, selectField, flat, selectResult.value, 0, [])
    {
      var rows := Select(db);
      if rows.Err? {
        return Err(rows.error);
      }
      r := ItemsOf(rows.value);
    }

    /** The loop of `__iter__` over fetched rows. */
    method ItemsOf(rows: seq<Row>) returns (r: Result<seq<Item>>)
      ensures r == ItemsFrom(mode, model, query.joins, selectField, flat, rows, 0, [])
    {
      var acc: seq<Item> := [];
      var i := 0;
      while i < |rows|
        invariant 0 <= i <= |rows|
        invariant ItemsFrom(mode, model, query.joins, selectField, flat, rows, i, acc) ==
          ItemsFrom(mode, model, query.joins, selectField, flat, rows, 0, [])
      {
        var item := ItemOf(rows[i]);
        if item.Err? {
          return Err(item.error);
        }
        acc := acc + [item.value];
        i := i + 1;
      }
      return Ok(acc);
    }
  }

  /** Iterating a set whose rows are fetched yields, when it succeeds, one
      element per row, the one `qs[i]` gives for each position; `count()`
      is then the number of elements. */
  lemma IterateAgreesWithIndex(mode: Mode, model: ModelSchema, joins: Joins, selectField: seq<string>, flat: bool,
                               rows: seq<Row>, i: nat)
    requires ItemsFrom(mode, model, joins, selectField, flat, rows, 0, []).Ok?
    requires i < |rows|
    ensures |ItemsFrom(mode, model, joins, selectField, flat, rows, 0, []).value| == |rows|
    ensures ToItem(mode, model, joins, selectField, flat, rows[i]) ==
      Ok(ItemsFrom(mode, model, joins, selectField, flat, rows, 0, []).value[i])
  {
    var none: seq<Item> := [];
    ItemsFromValues(mode, model, joins, selectField, flat, rows, 0, none);
    assert ToItem(mode, model, joins, selectField, flat, rows[i]) ==
      Ok(ItemsFrom(mode, model, joins, selectField, flat, rows, 0, []).value[|none| + i - 0]);
  }
}
