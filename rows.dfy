/** How a query set turns a fetched row into what it yields: a model instance
    with its joined instances (`QuerySet.data_to_obj`), a dictionary keyed by
    the selected names (`ValuesQuerySet`) or the row itself, or its first
    column when flat (`ValuesListQuerySet`). */
module Rows {
  import opened Wrappers
  import opened Text
  import opened Values
  import opened Dicts
  import opened Schema
  import opened Resolve
  import opened Compiler

  /** One element of a query set. */
  datatype Item = ObjItem(obj: Instance) | DictItem(d: Dict<string, Value>) | RowItem(row: Row) | ValueItem(v: Value)

  /** No name occurs twice. */
  ghost predicate Distinct(xs: seq<string>)
  {
    forall i, j | 0 <= i < j < |xs| :: xs[i] != xs[j]
  }

  /** `zip(keys, vals)`: pairs up to the shorter side. */
  function Zip(keys: seq<string>, vals: seq<Value>): (d: Dict<string, Value>)
    ensures |d| == if |keys| <= |vals| then |keys| else |vals|
    ensures forall i | 0 <= i < |d| :: d[i] == (keys[i], vals[i])
  {
    var n := if |keys| <= |vals| then |keys| else |vals|;
    seq(n, i requires 0 <= i < n => (keys[i], vals[i]))
  }

  /** `model(**dict(zip(model.field_list, vals)))`. */
  function InstanceOf(m: ModelSchema, vals: seq<Value>): Result<Instance>
  {
    NewInstance(m, Zip(m.fieldList, vals))
  }

  /** Columns the joined models before position `j` take. */
  function ColumnsBefore(joins: Joins, j: nat): nat
    requires j <= |joins|
  {
    if j == 0 then 0 else ColumnsBefore(joins, j - 1) + |joins[j - 1].1.model.fieldList|
  }

  /** The columns from `s` on, `row[s:]`. */
  function Columns(row: Row, s: nat): (r: Row)
    ensures |r| == if s < |row| then |row| - s else 0
    ensures forall k | 0 <= k < |r| :: r[k] == row[s + k]
  {
    if s < |row| then row[s..] else []
  }

  /** `zip` stops at the shorter side, so zipping the field names with
      `row[s:s + width]`, `width` being their number, pairs them exactly as
      zipping them with `row[s:]` does. */
  lemma ZipWindow(keys: seq<string>, row: Row, s: nat)
    ensures Zip(keys, Slice(row, s, s + |keys|)) == Zip(keys, Columns(row, s))
  {
    var a, b := Zip(keys, Slice(row, s, s + |keys|)), Zip(keys, Columns(row, s));
    assert |a| == |b|;
    forall k | 0 <= k < |a| ensures a[k] == b[k] {
      SliceAt(row, s, |keys|, k);
    }
  }

  /** `join_model(**dict(zip(join_model.field_list, row[s:s + width])))`,
      the window written as `row[s:]` (see `ZipWindow`). */
  function JoinObject(info: JoinInfo, row: Row, s: nat): Result<Instance>
  {
    InstanceOf(info.model, Columns(row, s))
  }

  /** The join loop of `data_to_obj` over the remaining joins, `start` being
      the first column of the first of them. */
  function JoinedFrom(inst: Instance, joins: Joins, row: Row, start: nat): Result<Instance>
    decreases |joins|
  {
    if |joins| == 0 then Ok(inst)
    else
      match JoinStep(inst, joins[0], row, start)
      case Err(e) => Err(e)
      case Ok(next) => JoinedFrom(next, joins[1..], row, start + |joins[0].1.model.fieldList|)
  }

  lemma JoinedFromNext(inst: Instance, joins: Joins, row: Row, start: nat, next: Instance)
    requires |joins| > 0 && JoinStep(inst, joins[0], row, start) == Ok(next)
    ensures JoinedFrom(inst, joins, row, start) == JoinedFrom(next, joins[1..], row, start + |joins[0].1.model.fieldList|)
  {
  }

  /** `setattr(obj_, alias, join_model(**...))` for one join. */
  function JoinStep(inst: Instance, join: (string, JoinInfo), row: Row, start: nat): Result<Instance>
  {
    match JoinObject(join.1, row, start)
    case Err(e) => Err(e)
    case Ok(obj) => SetAttr(inst, join.0, Related(obj))
  }

  /** `QuerySet.data_to_obj`: the model's fields from the first columns, then
      one instance per join from the columns that follow, set under its alias. */
  function RowToObject(model: ModelSchema, joins: Joins, row: Row): Result<Instance>
  {
    var n := |model.fieldList|;
    var inst :- InstanceOf(model, Slice(row, 0, n));
    JoinedFrom(inst, joins, row, n)
  }

  /** `data_to_obj` as the loop it is. */
  method DataToObj(model: ModelSchema, joins: Joins, row: Row) returns (r: Result<Instance>)
    ensures r == RowToObject(model, joins, row)
  {
    var start: nat := |model.fieldList|;
    var first := InstanceOf(model, Slice(row, 0, start));
    if first.Err? {
      return Err(first.error);
    }
    var inst := first.value;
    ghost var goal := JoinedFrom(inst, joins, row, start);
    assert RowToObject(model, joins, row) == goal;
    var rest := joins;
    while |rest| > 0
      invariant JoinedFrom(inst, rest, row, start) == goal
      decreases |rest|
    {
      var alias, info := rest[0].0, rest[0].1;
      var obj := JoinObject(info, row, start);
      if obj.Err? {
        assert JoinStep(inst, rest[0], row, start) == Err(obj.error);
        return Err(obj.error);
      }
      var next := SetAttr(inst, alias, Related(obj.value));
      assert JoinStep(inst, rest[0], row, start) == next;
      if next.Err? {
        return Err(next.error);
      }
      JoinedFromNext(inst, rest, row, start, next.value);
      inst, rest, start := next.value, rest[1..], start + |info.model.fieldList|;
    }
    return Ok(inst);
  }

  /** The model a join alias stands for, and the keyword arguments
      `Model.__init__` receives, are well formed. */
  ghost predicate Buildable(m: ModelSchema)
  {
    (m.primaryKey.Some? ==> m.primaryKey.value in m.fieldList) && Distinct(m.fieldList)
  }

  /** With distinct field keywords, each field gets the value of its own
      keyword, and a field without one keeps None. */
  lemma {:induction false} AssignedDistinct(s: ModelSchema, kw: Dict<string, Value>, f: string)
    requires forall j | 0 <= j < |kw| :: kw[j].0 in s.fieldList
    requires forall i, j | 0 <= i < j < |kw| :: kw[i].0 != kw[j].0
    ensures forall i | 0 <= i < |kw| && kw[i].0 == f :: Assigned(s, kw, f) == kw[i].1
    ensures (forall i | 0 <= i < |kw| :: kw[i].0 != f) ==> Assigned(s, kw, f) == PyNone
  {
    if |kw| > 0 {
      var init := kw[..|kw| - 1];
      AssignedDistinct(s, init, f);
    }
  }

  /** A model accepts every keyword its own fields give it. */
  lemma InstanceOfOk(m: ModelSchema, vals: seq<Value>)
    requires Buildable(m)
    ensures InstanceOf(m, vals).Ok?
  {
    var kw := Zip(m.fieldList, vals);
    NewInstanceFacts(m, kw);
    assert forall j | 0 <= j < |kw| :: Accepted(m, kw[j].0) by {
      forall j | 0 <= j < |kw| ensures Accepted(m, kw[j].0) {
        assert kw[j].0 == m.fieldList[j];
      }
    }
  }

  /** A model built from a row segment holds exactly its fields, the `k`-th
      taking the `k`-th value, or None past the end of the segment. */
  lemma InstanceOfFacts(m: ModelSchema, vals: seq<Value>)
    requires Buildable(m)
    ensures InstanceOf(m, vals).Ok?
    ensures var obj := InstanceOf(m, vals).value;
      obj.model == m && (forall f | f in obj.dict :: f in m.fieldList) &&
      forall k | 0 <= k < |m.fieldList| ::
        m.fieldList[k] in obj.dict && obj.dict[m.fieldList[k]] == Scalar(if k < |vals| then vals[k] else PyNone)
  {
    var kw := Zip(m.fieldList, vals);
    InstanceOfOk(m, vals);
    NewInstanceFacts(m, kw);
    var obj := InstanceOf(m, vals).value;
    forall f | f in obj.dict ensures f in m.fieldList {
      assert f in obj.dict.Keys;
    }
    forall k | 0 <= k < |m.fieldList| ensures m.fieldList[k] in obj.dict {
      assert m.fieldList[k] in (set f | f in m.fieldList);
    }
    forall k | 0 <= k < |m.fieldList|
      ensures Assigned(m, kw, m.fieldList[k]) == if k < |vals| then vals[k] else PyNone
    {
      AssignedDistinct(m, kw, m.fieldList[k]);
      if k < |vals| {
        assert kw[k].0 == m.fieldList[k];
      }
    }
  }

  /** Well-formed joins whose aliases are not `pk`. */
  ghost predicate JoinsBuildable(joins: Joins)
  {
    forall j | 0 <= j < |joins| :: Buildable(joins[j].1.model) && joins[j].0 != PrimaryKeyAlias
  }

  /** `ColumnsBefore` counted from the second join on. */
  lemma {:induction false} ColumnsBeforeShift(joins: Joins, j: nat)
    requires 0 < j <= |joins|
    ensures ColumnsBefore(joins, j) == |joins[0].1.model.fieldList| + ColumnsBefore(joins[1..], j - 1)
  {
    if j > 1 {
      ColumnsBeforeShift(joins, j - 1);
    }
  }

  /** One step of the join loop: the first alias set to the instance built
      from the columns from `start` on. */
  lemma JoinedStep(inst: Instance, joins: Joins, row: Row, start: nat) returns (obj: Instance, next: Instance, stop: nat)
    requires |joins| > 0 && JoinsBuildable(joins)
    ensures stop == start + |joins[0].1.model.fieldList|
    ensures JoinObject(joins[0].1, row, start) == Ok(obj)
    ensures next == inst.(dict := inst.dict[joins[0].0 := Related(obj)])
    ensures JoinedFrom(inst, joins, row, start) == JoinedFrom(next, joins[1..], row, stop)
    ensures JoinsBuildable(joins[1..])
  {
    stop := start + |joins[0].1.model.fieldList|;
    InstanceOfOk(joins[0].1.model, Columns(row, start));
    obj := JoinObject(joins[0].1, row, start).value;
    next := inst.(dict := inst.dict[joins[0].0 := Related(obj)]);
  }

  /** The join loop succeeds on well-formed joins. */
  lemma {:induction false} JoinedFromOk(inst: Instance, joins: Joins, row: Row, start: nat)
    requires JoinsBuildable(joins)
    ensures JoinedFrom(inst, joins, row, start).Ok?
    decreases |joins|
  {
    if |joins| > 0 {
      var obj, next, stop := JoinedStep(inst, joins, row, start);
      JoinedFromOk(next, joins[1..], row, stop);
    }
  }

  /** The join loop keeps the instance's class. */
  lemma {:induction false} JoinedFromModel(inst: Instance, joins: Joins, row: Row, start: nat)
    requires JoinsBuildable(joins)
    ensures JoinedFrom(inst, joins, row, start).Ok?
    ensures JoinedFrom(inst, joins, row, start).value.model == inst.model
    decreases |joins|
  {
    JoinedFromOk(inst, joins, row, start);
    if |joins| > 0 {
      var obj, next, stop := JoinedStep(inst, joins, row, start);
      JoinedFromModel(next, joins[1..], row, stop);
      assert next.model == inst.model;
    }
  }

  /** The join loop leaves every attribute that is not one of its aliases. */
  lemma {:induction false} JoinedFromKeeps(inst: Instance, joins: Joins, row: Row, start: nat, f: string)
    requires JoinsBuildable(joins)
    requires f in inst.dict && forall j | 0 <= j < |joins| :: joins[j].0 != f
    ensures JoinedFrom(inst, joins, row, start).Ok?
    ensures f in JoinedFrom(inst, joins, row, start).value.dict
    ensures JoinedFrom(inst, joins, row, start).value.dict[f] == inst.dict[f]
    decreases |joins|
  {
    JoinedFromOk(inst, joins, row, start);
    if |joins| > 0 {
      var obj, next, stop := JoinedStep(inst, joins, row, start);
      JoinedFromKeeps(next, joins[1..], row, stop, f);
    }
  }

  /** The join loop sets the alias at `j`, when no later join reuses it, to
      the instance built from its own columns, which start `ColumnsBefore`
      columns after `start`. */
  lemma {:induction false} JoinedFromSets(inst: Instance, joins: Joins, row: Row, start: nat, j: nat, s: nat)
    returns (r: Instance)
    requires j < |joins| && JoinsBuildable(joins)
    requires forall j' | j < j' < |joins| :: joins[j'].0 != joins[j].0
    requires s == start + ColumnsBefore(joins, j)
    ensures JoinedFrom(inst, joins, row, start) == Ok(r)
    ensures joins[j].0 in r.dict && r.dict[joins[j].0].Related?
    ensures JoinObject(joins[j].1, row, s) == Ok(r.dict[joins[j].0].obj)
    decreases |joins|, 1
  {
    if j == 0 {
      r := JoinedFromSetsFirst(inst, joins, row, start);
    } else {
      r := JoinedFromSetsLater(inst, joins, row, start, j, s);
    }
  }

  /** `JoinedFromSets` past the first join: the rest of the loop, from the
      columns after the first joined model. */
  lemma {:induction false} JoinedFromSetsLater(inst: Instance, joins: Joins, row: Row, start: nat, j: nat, s: nat)
    returns (r: Instance)
    requires 0 < j < |joins| && JoinsBuildable(joins)
    requires forall j' | j < j' < |joins| :: joins[j'].0 != joins[j].0
    requires s == start + ColumnsBefore(joins, j)
    ensures JoinedFrom(inst, joins, row, start) == Ok(r)
    ensures joins[j].0 in r.dict && r.dict[joins[j].0].Related?
    ensures JoinObject(joins[j].1, row, s) == Ok(r.dict[joins[j].0].obj)
    decreases |joins|, 0
  {
    var obj, next, stop := JoinedStep(inst, joins, row, start);
    var rest := joins[1..];
    ColumnsBeforeShift(joins, j);
    assert s == stop + ColumnsBefore(rest, j - 1);
    assert rest[j - 1] == joins[j];
    forall j' | j - 1 < j' < |rest|
      ensures rest[j'].0 != rest[j - 1].0
    {
      assert rest[j'] == joins[j' + 1];
    }
    r := JoinedFromSets(next, rest, row, stop, j - 1, s);
    assert JoinedFrom(inst, joins, row, start) == Ok(r);
  }

  /** `JoinedFromSets` for the first join. */
  lemma JoinedFromSetsFirst(inst: Instance, joins: Joins, row: Row, start: nat) returns (r: Instance)
    requires 0 < |joins| && JoinsBuildable(joins)
    requires forall j' | 0 < j' < |joins| :: joins[j'].0 != joins[0].0
    ensures JoinedFrom(inst, joins, row, start) == Ok(r)
    ensures joins[0].0 in r.dict && r.dict[joins[0].0].Related?
    ensures JoinObject(joins[0].1, row, start) == Ok(r.dict[joins[0].0].obj)
  {
    var obj, next, stop := JoinedStep(inst, joins, row, start);
    JoinedFromKeeps(next, joins[1..], row, stop, joins[0].0);
    r := JoinedFrom(next, joins[1..], row, stop).value;
  }

  /** `data_to_obj` builds the model from its own columns, then runs the
      join loop from the column after them. */
  lemma RowToObjectStep(model: ModelSchema, row: Row, joins: Joins) returns (inst: Instance, n: nat)
    requires Buildable(model)
    ensures n == |model.fieldList|
    ensures InstanceOf(model, Slice(row, 0, n)) == Ok(inst)
    ensures RowToObject(model, joins, row) == JoinedFrom(inst, joins, row, n)
  {
    n := |model.fieldList|;
    InstanceOfOk(model, Slice(row, 0, n));
    inst := InstanceOf(model, Slice(row, 0, n)).value;
  }

  /** `data_to_obj` on a well-formed model whose join aliases are not its
      fields: an instance of the model whose `k`-th field takes the `k`-th
      column, None when the row is shorter. */
  lemma RowToObjectFields(model: ModelSchema, joins: Joins, row: Row)
    requires Buildable(model) && JoinsBuildable(joins)
    requires forall j | 0 <= j < |joins| :: joins[j].0 !in model.fieldList
    ensures RowToObject(model, joins, row).Ok?
    ensures RowToObject(model, joins, row).value.model == model
    ensures forall k | 0 <= k < |model.fieldList| ::
      model.fieldList[k] in RowToObject(model, joins, row).value.dict &&
      RowToObject(model, joins, row).value.dict[model.fieldList[k]] == Scalar(if k < |row| then row[k] else PyNone)
  {
    var inst, n := RowToObjectStep(model, row, joins);
    InstanceOfFacts(model, Slice(row, 0, n));
    JoinedFromModel(inst, joins, row, n);
    forall k | 0 <= k < n
      ensures model.fieldList[k] in JoinedFrom(inst, joins, row, n).value.dict
      ensures JoinedFrom(inst, joins, row, n).value.dict[model.fieldList[k]] == Scalar(if k < |row| then row[k] else PyNone)
    {
      JoinedFromKeeps(inst, joins, row, n, model.fieldList[k]);
    }
  }

  /** `data_to_obj` with distinct join aliases: the alias of join `j` holds
      the joined model built from the columns right after those of the model
      and of the joins before it. */
  lemma RowToObjectJoins(model: ModelSchema, joins: Joins, row: Row, j: nat) returns (obj: Instance)
    requires Buildable(model) && JoinsBuildable(joins) && j < |joins|
    requires forall i, k | 0 <= i < k < |joins| :: joins[i].0 != joins[k].0
    ensures RowToObject(model, joins, row) == Ok(obj)
    ensures joins[j].0 in obj.dict && obj.dict[joins[j].0].Related?
    ensures JoinObject(joins[j].1, row, |model.fieldList| + ColumnsBefore(joins, j)) == Ok(obj.dict[joins[j].0].obj)
  {
    var inst, n := RowToObjectStep(model, row, joins);
    forall k | j < k < |joins|
      ensures joins[k].0 != joins[j].0
    {
    }
    obj := JoinedFromSets(inst, joins, row, n, j, n + ColumnsBefore(joins, j));
  }

  /** The joined instance itself: an instance of the joined model whose
      `k`-th field takes the `k`-th column from `s` on, None past the row. */
  lemma JoinObjectFacts(info: JoinInfo, row: Row, s: nat) returns (obj: Instance)
    requires Buildable(info.model)
    ensures JoinObject(info, row, s) == Ok(obj)
    ensures obj.model == info.model
    ensures forall k | 0 <= k < |info.model.fieldList| ::
      info.model.fieldList[k] in obj.dict &&
      obj.dict[info.model.fieldList[k]] == Scalar(if s + k < |row| then row[s + k] else PyNone)
  {
    var m := info.model;
    var seg := Columns(row, s);
    InstanceOfOk(m, seg);
    obj := InstanceOf(m, seg).value;
    assert JoinObject(info, row, s) == Ok(obj);
    InstanceOfFacts(m, seg);
  }

  /** Column `k` of `row[s:s + n]` is column `s + k` of the row, None past
      its end. */
  lemma SliceAt(row: Row, s: nat, n: nat, k: nat)
    requires k < n
    ensures var seg := Slice(row, s, s + n);
      (if k < |seg| then seg[k] else PyNone) == (if s + k < |row| then row[s + k] else PyNone)
  {
  }

  /** The dictionary comprehension of `ValuesQuerySet.get_index` from
      position `i` on. */
  function ValuesFrom(fields: seq<string>, row: Row, i: nat, acc: Dict<string, Value>): Result<Dict<string, Value>>
    requires i <= |fields|
    decreases |fields| - i
  {
    if i == |fields| then Ok(acc)
    else if i >= |row| then Err(IndexError)
    else ValuesFrom(fields, row, i + 1, Put(acc, fields[i], row[i]))
  }

  /** `{field: row[i] for i, field in enumerate(fields)}`. */
  function ValuesDict(fields: seq<string>, row: Row): Result<Dict<string, Value>>
  {
    ValuesFrom(fields, row, 0, [])
  }

  lemma {:induction false} ValuesFromFacts(fields: seq<string>, row: Row, i: nat, acc: Dict<string, Value>)
    requires i <= |fields|
    requires Distinct(fields)
    requires Keys(acc) == fields[..i]
    requires i <= |row|
    requires forall k | 0 <= k < i :: Get(acc, fields[k]) == Some(row[k])
    ensures ValuesFrom(fields, row, i, acc).Ok? <==> |fields| <= |row|
    ensures ValuesFrom(fields, row, i, acc).Ok? ==>
      var d := ValuesFrom(fields, row, i, acc).value;
      Keys(d) == fields && forall k | 0 <= k < |fields| :: Get(d, fields[k]) == Some(row[k])
    decreases |fields| - i
  {
    if i == |fields| {
      assert fields[..i] == fields;
    } else if i < |row| {
      var next := Put(acc, fields[i], row[i]);
      assert fields[i] !in Keys(acc);
      PutKeys(acc, fields[i], row[i]);
      assert Keys(next) == fields[..i + 1] by {
        assert fields[..i + 1] == fields[..i] + [fields[i]];
      }
      forall k | 0 <= k < i + 1 ensures Get(next, fields[k]) == Some(row[k]) {
        if k < i {
          assert fields[k] != fields[i];
          assert Get(next, fields[k]) == Get(acc, fields[k]);
        }
      }
      ValuesFromFacts(fields, row, i + 1, next);
    }
  }

  /** A row with fewer columns than names fails, whatever the names. */
  lemma {:induction false} ValuesFromShort(fields: seq<string>, row: Row, i: nat, acc: Dict<string, Value>)
    requires i <= |row| < |fields|
    ensures ValuesFrom(fields, row, i, acc) == Err(IndexError)
    decreases |fields| - i
  {
    if i < |row| {
      var next := Put(acc, fields[i], row[i]);
      assert ValuesFrom(fields, row, i, acc) == ValuesFrom(fields, row, i + 1, next);
      ValuesFromShort(fields, row, i + 1, next);
    }
  }

  /** A values row succeeds exactly when the row has a column for every
      name; the dictionary then has the names as keys, in order, each mapped
      to the column at its position. */
  lemma ValuesDictFacts(fields: seq<string>, row: Row)
    requires Distinct(fields)
    ensures ValuesDict(fields, row).Ok? <==> |fields| <= |row|
    ensures ValuesDict(fields, row).Ok? ==>
      var d := ValuesDict(fields, row).value;
      Keys(d) == fields && forall k | 0 <= k < |fields| :: Get(d, fields[k]) == Some(row[k])
  {
    ValuesFromFacts(fields, row, 0, []);
  }

  /** What a query set of each kind makes of a row: `data_to_obj`, the values
      dictionary, or the row, its first column when flat (`value[0]`). */
  function ToItem(mode: Mode, model: ModelSchema, joins: Joins, selectField: seq<string>, flat: bool, row: Row): (r: Result<Item>)
    ensures mode == ValuesListSet && flat ==> (r.Ok? <==> |row| > 0)
    ensures mode == ValuesListSet && flat && |row| > 0 ==> r == Ok(ValueItem(row[0]))
    ensures mode == ValuesListSet && !flat ==> r == Ok(RowItem(row))
    ensures mode == PlainSet ==> (r.Ok? <==> RowToObject(model, joins, row).Ok?)
    ensures mode == ValuesSet ==> (r.Ok? <==> ValuesDict(selectField, row).Ok?)
  {
    match mode
    case PlainSet =>
      var obj :- RowToObject(model, joins, row);
      Ok(ObjItem(obj))
    case ValuesSet =>
      var d :- ValuesDict(selectField, row);
      Ok(DictItem(d))
    case ValuesListSet =>
      if !flat then Ok(RowItem(row))
      else if |row| == 0 then Err(IndexError)
      else Ok(ValueItem(row[0]))
  }

  /** Python truth of an element: an instance with attributes, a non-empty
      dictionary or row, a true value. */
  predicate ItemTruthy(item: Item)
  {
    match item
    case ObjItem(obj) => InstanceTruthy(obj)
    case DictItem(d) => d != []
    case RowItem(row) => row != []
    case ValueItem(v) => Truthy(v)
  }

  /** `alias__x` for every field of every joined model from position `i` on. */
  function JoinedNames(joins: Joins, i: nat): (r: seq<string>)
    requires i <= |joins|
    ensures |r| == JoinWidth(joins, i)
    decreases |joins| - i
  {
    if i == |joins| then [] else AliasNames(joins[i].0, joins[i].1.model.fieldList) + JoinedNames(joins, i + 1)
  }

  /** `ValuesQuerySet.select_field`: the selected names and the annotation
      names; when there are none, every field and then `alias__x` for every
      field of every joined model. */
  function ValuesFields(q: Query): seq<string>
  {
    var named := q.select + Keys(q.annotates);
    if |named| > 0 then named else q.model.fieldList + JoinedNames(q.joins, 0)
  }

  /** What `values_list` and `ValuesListQuerySet` raise for a flat set
      without exactly one field. */
  const FlatError := TypeError("flat is not valid when values_list is called with more than one field.")

  /** `ValuesListQuerySet.select_field`: a flat set needs exactly one
      selected name; the annotation names follow. */
  function ValuesListFields(q: Query): (r: Result<seq<string>>)
    ensures r.Err? <==> q.flat && |q.select| != 1
    ensures r.Ok? ==> |r.value| == |q.select| + |q.annotates| && r.value[..|q.select|] == q.select
  {
    if q.flat && |q.select| != 1 then Err(FlatError)
    else Ok(q.select + Keys(q.annotates))
  }

  /** The names of a values set line up one to one with the columns its
      SELECT emits, when names were selected or nothing was annotated. */
  lemma ValuesFieldsAlign(q: Query, js: (string, seq<string>), cols: seq<string>)
    requires JoinsFrom(q.model, q.joins, 0, "", []) == Ok(js)
    requires SelectColumns(q, js.1) == Ok(cols)
    requires |q.select| > 0 || |q.annotates| == 0
    ensures |ValuesFields(q)| == |cols|
  {
    var base := if |q.select| > 0 then q.select else q.model.fieldList;
    var c := ColumnsFrom(q.model, q.joins, base, 0, []);
    var a := AnnotateFrom(q.model, q.joins, q.annotates, 0, []);
    assert c.Ok? && a.Ok?;
    AnnotateFromItems(q.model, q.joins, q.annotates, 0, []);
  }

  /** `annotate` with nothing grouped selects every field, the joined
      fields and then the aggregates, while its values set names only the
      aggregates: the first aggregate's name is paired with the first field's
      column. */
  lemma AnnotateShiftsValues(q: Query, js: (string, seq<string>), cols: seq<string>)
    requires JoinsFrom(q.model, q.joins, 0, "", []) == Ok(js)
    requires SelectColumns(q, js.1) == Ok(cols)
    requires |q.select| == 0 && |q.annotates| > 0 && |q.model.fieldList| > 0
    ensures ValuesFields(q) == Keys(q.annotates)
    ensures |cols| == |q.model.fieldList| + JoinWidth(q.joins, 0) + |q.annotates|
    ensures cols[0] == FieldInfo(q.model, q.joins, q.model.fieldList[0]).value
  {
    var c := ColumnsFrom(q.model, q.joins, q.model.fieldList, 0, []);
    var a := AnnotateFrom(q.model, q.joins, q.annotates, 0, []);
    assert c.Ok? && a.Ok?;
    AnnotateFromItems(q.model, q.joins, q.annotates, 0, []);
    assert cols == c.value + js.1 + a.value;
  }
}
