/** From a query's state to one SQL statement and its parameters:
    `WhereNode.f_expr`, `WhereNode.magic_query`, `WhereNode._sql_expr` /
    `sql_expr` / `as_sql` and `Query.sql_expr`, as functions. The loops of
    the same operations are methods in `CompilerLoops`, proved to compute
    these functions. */
module Compiler {
  import opened Wrappers
  import opened Text
  import opened Values
  import opened Dicts
  import opened Schema
  import opened Expressions
  import opened Predicates
  import opened Resolve
  import opened Aggregates

  /** Which kind of query set a sub-query value is: `QuerySet`,
      `ValuesQuerySet` or `ValuesListQuerySet`. */
  datatype Mode = PlainSet | ValuesSet | ValuesListSet

  /** The value of a lookup: a plain value, a column expression, or a query
      set (only meaningful for `__in`). */
  datatype Operand = Val(v: Value) | Ex(e: Expr) | Sub(mode: Mode, query: Query)

  /** `WhereNode`: the model, the alias table it resolves lookups with, and
      the filter tree, which starts as `Q()` and only ever gains conjuncts. */
  datatype WhereNode = WhereNode(model: ModelSchema, joins: Joins, filter: Q<Operand>)

  /** `limit_dict`: `limit` and `offset`, each possibly absent. */
  datatype Limits = Limits(limit: Option<int>, offset: Option<int>)

  datatype Query = Query(
    model: ModelSchema,
    select: seq<string>,
    flat: bool,
    joins: Joins,
    groupBy: seq<string>,
    annotates: Dict<string, Aggregate>,
    limits: Limits,
    distinct: bool,
    orderFields: seq<string>,
    where: WhereNode)

  /** The `method` argument of `Query.sql_expr`, with `update_dict` for an update. */
  datatype Method = SelectSql | CountSql | DeleteSql | UpdateSql(updates: Dict<string, Term>)

  /** An SQL text and its parameters. */
  type Statement = (string, seq<Value>)

  /** The limit written when only an offset is set (MySQL's largest). */
  const MaxLimit: int := 18446744073709551615

  /** `Query(model)`. */
  function NewQuery(model: ModelSchema): (q: Query)
    ensures q.model == model && q.where.model == model
    ensures q.select == [] && q.joins == [] && q.groupBy == [] && q.annotates == [] && q.orderFields == []
    ensures q.limits == Limits(None, None) && !q.distinct && !q.flat
    ensures !Nonempty(q.where.filter) && FilterShape(q.where.filter)
  {
    Query(model, [], false, [], [], [], Limits(None, None), false, [], WhereNode(model, [], Q(AND, false, [])))
  }

  /** The filter of a where node is an un-negated AND node. */
  predicate FilterShape(f: Q<Operand>)
  {
    f.connector == AND && !f.negated
  }

  /** `WhereNode.clone`: a fresh `Q()` to which the old filter is added. */
  function CloneWhere(w: WhereNode): WhereNode
  {
    WhereNode(w.model, w.joins, Add(Q(AND, false, []), w.filter, AND))
  }

  /** `Query.clone`: copies of every list and dictionary and a cloned where node. */
  function CloneQuery(q: Query): Query
  {
    Query(q.model, q.select, q.flat, q.joins, q.groupBy, q.annotates, q.limits, q.distinct, q.orderFields,
          CloneWhere(q.where))
  }

  /** Cloning changes nothing a query means: the filter tree is rebuilt equal. */
  lemma CloneQueryIdentity(q: Query)
    requires FilterShape(q.where.filter)
    ensures CloneQuery(q) == q
  {
    assert [] + q.where.filter.children == q.where.filter.children;
  }

  // ---------------------------------------------------------------------------
  // WhereNode.f_expr

  /** `f_expr`: a column for `F(name)`; for a combined node, both sides joined
      by its connector, a side in parentheses when it is a combined node with
      another connector, a plain value as a `%s` placeholder. */
  function FExpr(model: ModelSchema, joins: Joins, e: Expr): Result<Statement>
    decreases e, 1
  {
    match e
    case F(name) =>
      var col :- FieldInfo(model, joins, name);
      Ok((col, []))
    case Combined(lhs, c, rhs) =>
      var a :- FTerm(model, joins, lhs, c);
      var b :- FTerm(model, joins, rhs, c);
      Ok((a.0 + c + b.0, a.1 + b.1))
  }

  function FTerm(model: ModelSchema, joins: Joins, t: Term, parent: string): Result<Statement>
    decreases t, 0
  {
    match t
    case Lit(v) => Ok(("%s", [v]))
    case E(e) =>
      var s :- FExpr(model, joins, e);
      Ok((if e.Combined? && e.connector != parent then "(" + s.0 + ")" else s.0, s.1))
  }

  /** Every name in `names` resolves to a column. */
  predicate AllResolve(model: ModelSchema, joins: Joins, names: seq<string>)
  {
    forall i | 0 <= i < |names| :: FieldInfo(model, joins, names[i]).Ok?
  }

  lemma AllResolveAppend(model: ModelSchema, joins: Joins, xs: seq<string>, ys: seq<string>)
    ensures AllResolve(model, joins, xs + ys) <==> AllResolve(model, joins, xs) && AllResolve(model, joins, ys)
  {
    var zs := xs + ys;
    if AllResolve(model, joins, zs) {
      forall i | 0 <= i < |ys| ensures FieldInfo(model, joins, ys[i]).Ok? {
        assert zs[|xs| + i] == ys[i];
      }
      forall i | 0 <= i < |xs| ensures FieldInfo(model, joins, xs[i]).Ok? {
        assert zs[i] == xs[i];
      }
    }
    if AllResolve(model, joins, xs) && AllResolve(model, joins, ys) {
      forall i | 0 <= i < |zs| ensures FieldInfo(model, joins, zs[i]).Ok? {
        if i < |xs| {
          assert zs[i] == xs[i];
        } else {
          assert zs[i] == ys[i - |xs|];
        }
      }
    }
  }

  /** Every column name must resolve, and the parameters are the plain values
      of the expression, left to right. */
  lemma {:induction false} FExprFacts(model: ModelSchema, joins: Joins, e: Expr)
    ensures FExpr(model, joins, e).Ok? <==> AllResolve(model, joins, Names(e))
    ensures FExpr(model, joins, e).Ok? ==> FExpr(model, joins, e).value.1 == Literals(e)
    decreases e, 1
  {
    match e
    case F(name) =>
      assert Names(e)[0] == name;
    case Combined(lhs, c, rhs) =>
      FTermFacts(model, joins, lhs, c);
      FTermFacts(model, joins, rhs, c);
      AllResolveAppend(model, joins, TermNames(lhs), TermNames(rhs));
  }

  lemma {:induction false} FTermFacts(model: ModelSchema, joins: Joins, t: Term, parent: string)
    ensures FTerm(model, joins, t, parent).Ok? <==> AllResolve(model, joins, TermNames(t))
    ensures FTerm(model, joins, t, parent).Ok? ==> FTerm(model, joins, t, parent).value.1 == TermLiterals(t)
    decreases t, 0
  {
    match t
    case Lit(v) =>
    case E(e) =>
      FExprFacts(model, joins, e);

  }

  // ---------------------------------------------------------------------------
  // WhereNode.magic_query

  /** The comparison lookups and their SQL. */
  function LookupTemplate(magic: string): Option<string>
  {
    if magic == "" then Some(" = %s ")
    else if magic == "gt" then Some(" > %s ")
    else if magic == "gte" then Some(" >= %s ")
    else if magic == "lt" then Some(" < %s ")
    else if magic == "lte" then Some(" <= %s ")
    else if magic == "contains" then Some(" like CONCAT(\"%%\", %s, \"%%\") ")
    else if magic == "startswith" then Some(" like CONCAT(%s, \"%%\") ")
    else if magic == "endswith" then Some(" like CONCAT(\"%%\", %s) ")
    else None
  }

  /** `__primary_key__` is set (and truthy). */
  predicate HasPrimaryKey(m: ModelSchema)
  {
    m.primaryKey.Some? && m.primaryKey.value != ""
  }

  /** Which model, attribute and lookup a keyword names:
      `field__lookup` (or `pk__lookup`) on the model, `alias__field` or
      `alias__field__lookup` on a joined model, or a bare attribute. */
  function LookupTarget(w: WhereNode, key: string): (r: Result<(ModelSchema, string, string)>)
    ensures !Contains(key, Dunder) ==> r == Ok((w.model, key, ""))
    ensures r.Ok? ==> r.value.1 != "" || !Contains(key, Dunder)
  {
    if !Contains(key, Dunder) then Ok((w.model, key, ""))
    else
      var parts := Split(key, Dunder);
      var head := parts[0];
      var rest := parts[1..];
      var picked :=
        if |rest| == 1 && (head in w.model.fieldList || (head == PrimaryKeyAlias && HasPrimaryKey(w.model))) then
          (w.model, head, rest[0])
        else if Get(w.joins, head).Some? then
          var target := Get(w.joins, head).value.model;
          if |rest| == 1 then (target, rest[0], "")
          else if |rest| == 2 then (target, rest[0], rest[1])
          else (target, "", "")
        else (w.model, "", "");
      if picked.1 == "" then Err(Unresolved(head)) else Ok(picked)
  }

  /** Python truth testing of a lookup value: expressions are objects without
      `__bool__`; a query set's truth value runs a query. */
  function OperandTruthy(value: Operand): Result<bool>
  {
    match value
    case Val(v) => Ok(Truthy(v))
    case Ex(_) => Ok(true)
    case Sub(_, _) => Err(Unsupported("truth value of a query set"))
  }

  /** `magic_query((key, value))`: the condition's SQL and its parameters.
      An unknown lookup gives no SQL and no parameters. */
  function MagicQuery(w: WhereNode, key: string, value: Operand): (r: Result<Statement>)
    decreases value, 1
  {
    var t :- LookupTarget(w, key);
    var col :- ColumnRef(t.0, t.1);
    var magic := t.2;
    if LookupTemplate(magic).Some? then
      var raw := " " + col + LookupTemplate(magic).value;
      match value
      case Val(v) => Ok((raw, [v]))
      case Ex(e) =>
        var f :- FExpr(w.model, w.joins, e);
        Ok((ReplaceAll(raw, "%s", f.0), f.1))
      case Sub(_, _) => Err(Unsupported("a query set as a comparison value"))
    else if magic == "isnull" then
      var truthy :- OperandTruthy(value);
      Ok((" " + col + (if truthy then " is null " else " is not null "), []))
    else if magic == "range" then
      match value
      case Val(v) =>
        var items :- Elements(v);
        Ok((" " + col + " between %s and %s ", items))
      case Ex(_) => Err(TypeError("object is not iterable"))
      case Sub(_, _) => Err(Unsupported("iterating a query set"))
    else if magic == "in" then InLookup(w, t.0, col, value)
    else Ok(("", []))
  }

  /** The query an `__in` sub-query compiles: a `QuerySet` selects its
      primary key; the values kinds must select exactly one field. */
  function SubQuery(mode: Mode, sq: Query): (r: Result<Query>)
    ensures r.Ok? ==> r.value.where == sq.where
    ensures r.Ok? ==> |r.value.select| == 1
    ensures r.Ok? <==> (if mode == PlainSet then HasPrimaryKey(sq.model) else |sq.select| == 1)
  {
    if mode == PlainSet then
      if HasPrimaryKey(sq.model) then Ok(sq.(select := [sq.model.primaryKey.value]))
      else Err(TypeError("Primary key not defined in class: " + sq.model.name))
    else if |sq.select| != 1 then Err(TypeError("Cannot use a multi-field " + sq.model.name + " as a filter value."))
    else Ok(sq)
  }

  /** The `in` lookup: a sub-select for a query set on the same host, else a
      tuple parameter (or ` False ` for an empty collection). */
  function InLookup(w: WhereNode, target: ModelSchema, col: string, value: Operand): Result<Statement>
    decreases value, 0
  {
    match value
    case Sub(mode, sq) =>
      if w.model.config.host != sq.model.config.host then
        Err(TypeError(target.name + " and " + sq.model.name + " are not in the same database "))
      else
        var sub :- SubQuery(mode, sq);
        assert sub.where.filter == sq.where.filter;
        var st :- CompileQuery(sub, SelectSql);
        Ok((" " + col + " in ( " + DropLast(st.0) + " ) ", st.1))
    case Val(v) =>
      var n :- Length(v);
      if n == 0 then Ok((" False ", []))
      else Ok((" " + col + " in %s ", [PyTuple(Elements(v).value)]))
    case Ex(_) => Err(TypeError("object has no len()"))
  }

  // ---------------------------------------------------------------------------
  // WhereNode._sql_expr, sql_expr, as_sql

  /** `' not ' + x` for every piece. */
  function Prefixed(p: string, xs: seq<string>): (r: seq<string>)
    ensures |r| == |xs|
    ensures forall i | 0 <= i < |xs| :: r[i] == p + xs[i]
  {
    seq(|xs|, i requires 0 <= i < |xs| => p + xs[i])
  }

  /** `_sql_expr` over the children of a node with connector `parent`: the
      pieces (one per leaf, one per nested node that yields any) and the
      parameters, in order. */
  function RenderChildren(w: WhereNode, parent: Connector, cs: seq<Child<Operand>>): (r: Result<(seq<string>, seq<Value>)>)
    decreases cs, 3
  {
    if |cs| == 0 then Ok(([], []))
    else
      var init :- RenderChildren(w, parent, cs[..|cs| - 1]);
      var last :- RenderChild(w, parent, cs[|cs| - 1]);
      Ok((init.0 + last.0, init.1 + last.1))
  }

  /** One child: a leaf's condition; a nested node's pieces, each prefixed
      with ` not ` when it is negated, joined by its connector and
      parenthesised when that differs from `parent`. A nested node without
      pieces contributes nothing. */
  function RenderChild(w: WhereNode, parent: Connector, c: Child<Operand>): (r: Result<(seq<string>, seq<Value>)>)
    ensures r.Ok? ==> |r.value.0| <= 1
    decreases c, 2
  {
    match c
    case Leaf(k, v) =>
      var s :- MagicQuery(w, k, v);
      Ok(([s.0], s.1))
    case Group(g) =>
      var sub :- RenderChildren(w, g.connector, g.children);
      if |sub.0| == 0 then Ok(([], []))
      else
        var parts := if g.negated then Prefixed(" not ", sub.0) else sub.0;
        var raw := Join(parts, ConnectorText(g.connector));
        Ok(([if g.connector != parent then " ( " + raw + " ) " else raw], sub.1))
  }

  /** `sql_expr(q)`: the pieces joined by the node's connector. The node's
      own negation is not rendered. */
  function SqlExpr(w: WhereNode, q: Q<Operand>): Result<Statement>
    decreases q, 4
  {
    var r :- RenderChildren(w, q.connector, q.children);
    Ok((Join(r.0, ConnectorText(q.connector)), r.1))
  }

  /** `as_sql()`: nothing for an empty filter. */
  function AsSql(w: WhereNode): (r: Result<Statement>)
    ensures !Nonempty(w.filter) ==> r == Ok(("", []))
    decreases w.filter, 5
  {
    if Nonempty(w.filter) then SqlExpr(w, w.filter) else Ok(("", []))
  }

  /** A rendered child yields a piece exactly when it holds a leaf somewhere,
      which is what `Predicates.Rendered` says. */
  lemma {:induction false} RenderChildRendered(w: WhereNode, parent: Connector, c: Child<Operand>)
    requires RenderChild(w, parent, c).Ok?
    ensures |RenderChild(w, parent, c).value.0| == 1 <==> Rendered(c)
    decreases c, 2
  {
    match c
    case Leaf(_, _) =>
    case Group(g) =>
      RenderChildrenRendered(w, g.connector, g.children);
  }

  lemma {:induction false} RenderChildrenRendered(w: WhereNode, parent: Connector, cs: seq<Child<Operand>>)
    requires RenderChildren(w, parent, cs).Ok?
    ensures |RenderChildren(w, parent, cs).value.0| > 0 <==> exists i | 0 <= i < |cs| :: Rendered(cs[i])
    decreases cs, 3
  {
    if |cs| > 0 {
      var init := cs[..|cs| - 1];
      RenderChildrenRendered(w, parent, init);
      RenderChildRendered(w, parent, cs[|cs| - 1]);
      if exists i | 0 <= i < |cs| :: Rendered(cs[i]) {
        var i :| 0 <= i < |cs| && Rendered(cs[i]);
        if i < |cs| - 1 {
          assert init[i] == cs[i];
        }
      }
      if exists i | 0 <= i < |init| :: Rendered(init[i]) {
        var i :| 0 <= i < |init| && Rendered(init[i]);
        assert cs[i] == init[i];
      }
    }
  }

  // ---------------------------------------------------------------------------
  // Query.sql_expr

  /** `[field_info(x) for x in names]`. */
  function ColumnsFrom(model: ModelSchema, joins: Joins, names: seq<string>, i: nat, acc: seq<string>): (r: Result<seq<string>>)
    requires i <= |names|
    ensures r.Ok? ==> |r.value| == |acc| + |names| - i && r.value[..|acc|] == acc
    ensures r.Ok? <==> forall j | i <= j < |names| :: FieldInfo(model, joins, names[j]).Ok?
    ensures r.Ok? ==> forall j | i <= j < |names| :: r.value[|acc| + j - i] == FieldInfo(model, joins, names[j]).value
    decreases |names| - i
  {
    if i == |names| then Ok(acc)
    else
      var col :- FieldInfo(model, joins, names[i]);
      ColumnsFrom(model, joins, names, i + 1, acc + [col])
  }

  /** One order-by item: `field_info(x[1:]) + ' desc '` for `-x`, else
      `field_info(x)`; an empty name is the IndexError of `field[0]`. */
  function OrderItem(model: ModelSchema, joins: Joins, f: string): Result<string>
  {
    if |f| == 0 then Err(IndexError)
    else if f[0] == '-' then
      var col :- FieldInfo(model, joins, f[1..]);
      Ok(col + " desc ")
    else FieldInfo(model, joins, f)
  }

  /** The order-by loop: one item per field, in order, the first failure raised. */
  function OrderFrom(model: ModelSchema, joins: Joins, fields: seq<string>, i: nat, acc: seq<string>): (r: Result<seq<string>>)
    requires i <= |fields|
    ensures r.Ok? ==> |r.value| == |acc| + |fields| - i && r.value[..|acc|] == acc
    ensures r.Ok? <==> forall j | i <= j < |fields| :: OrderItem(model, joins, fields[j]).Ok?
    ensures r.Ok? ==> forall j | i <= j < |fields| :: r.value[|acc| + j - i] == OrderItem(model, joins, fields[j]).value
    decreases |fields| - i
  {
    if i == |fields| then Ok(acc)
    else
      var item :- OrderItem(model, joins, fields[i]);
      OrderFrom(model, joins, fields, i + 1, acc + [item])
  }

  /** `field_info(k) + ' = ' + field_info(v)` for one pair of a join. */
  function OnSql(model: ModelSchema, joins: Joins, pair: (string, string)): (r: Result<string>)
    ensures r.Ok? <==> FieldInfo(model, joins, pair.0).Ok? && FieldInfo(model, joins, pair.1).Ok?
    ensures r.Ok? ==> r.value == FieldInfo(model, joins, pair.0).value + " = " + FieldInfo(model, joins, pair.1).value
  {
    match FieldInfo(model, joins, pair.0)
    case Err(e) => Err(e)
    case Ok(l) =>
      match FieldInfo(model, joins, pair.1)
      case Err(e) => Err(e)
      case Ok(r) => Ok(l + " = " + r)
  }

  /** The conditions of a join, one per pair, in order. */
  function OnFrom(model: ModelSchema, joins: Joins, on: seq<(string, string)>, i: nat, acc: seq<string>): Result<seq<string>>
    requires i <= |on|
  {
    MapFrom((pair: (string, string)) => OnSql(model, joins, pair), on, i, acc)
  }

  /** The conditions of a join compile exactly when both sides of every
      pair resolve, and are then `a = b` for each pair, in order. */
  lemma OnFromItems(model: ModelSchema, joins: Joins, on: seq<(string, string)>, i: nat, acc: seq<string>)
    requires i <= |on|
    ensures OnFrom(model, joins, on, i, acc).Ok? <==> forall j | i <= j < |on| :: OnSql(model, joins, on[j]).Ok?
    ensures OnFrom(model, joins, on, i, acc).Ok? ==>
      |OnFrom(model, joins, on, i, acc).value| == |acc| + |on| - i &&
      OnFrom(model, joins, on, i, acc).value[..|acc|] == acc &&
      forall j | i <= j < |on| :: OnFrom(model, joins, on, i, acc).value[|acc| + j - i] == OnSql(model, joins, on[j]).value
  {
    var f := (pair: (string, string)) => OnSql(model, joins, pair);
    MapFromOk(f, on, i, acc);
    if MapFrom(f, on, i, acc).Ok? {
      MapFromPrefix(f, on, i, acc);
      MapFromValues(f, on, i, acc);
    }
  }

  /** `alias__x` for every field `x` of a joined model. */
  function AliasNames(alias: string, fieldList: seq<string>): (r: seq<string>)
    ensures |r| == |fieldList|
    ensures forall i | 0 <= i < |r| :: r[i] == alias + Dunder + fieldList[i]
  {
    Prefixed(alias + Dunder, fieldList)
  }

  /** One join clause: ` join <table> on a = b and ...`. */
  function JoinClause(info: JoinInfo, ons: seq<string>): string
  {
    " join " + TableRef(info.model) + " on " + Join(ons, " and ")
  }

  /** How many columns the joined models from position `i` on add. */
  function JoinWidth(joins: Joins, i: nat): nat
    requires i <= |joins|
    decreases |joins| - i
  {
    if i == |joins| then 0 else |joins[i].1.model.fieldList| + JoinWidth(joins, i + 1)
  }

  /** What the join `(alias, info)` adds: its clause ` join <table> on
      <a = b and ...>`, and its columns, `alias__x` for every field `x` of
      the joined model. */
  function JoinItem(model: ModelSchema, joins: Joins, join: (string, JoinInfo)): Result<(string, seq<string>)>
  {
    match ColumnsFrom(model, joins, AliasNames(join.0, join.1.model.fieldList), 0, [])
    case Err(e) => Err(e)
    case Ok(jf) =>
      match OnFrom(model, joins, join.1.on, 0, [])
      case Err(e) => Err(e)
      case Ok(ons) => Ok((JoinClause(join.1, ons), jf))
  }

  function JoinItems(model: ModelSchema, joins: Joins): ((string, JoinInfo)) -> Result<(string, seq<string>)>
  {
    join => JoinItem(model, joins, join)
  }

  /** The join loop: the clauses, and the columns of the joined models, one
      per field of each joined model. */
  function JoinsFrom(model: ModelSchema, joins: Joins, i: nat, sql: string, fields: seq<string>): (r: Result<(string, seq<string>)>)
    requires i <= |joins|
    ensures r.Ok? ==> |r.value.1| == |fields| + JoinWidth(joins, i)
    decreases |joins| - i
  {
    if i == |joins| then Ok((sql, fields))
    else
      match JoinItem(model, joins, joins[i])
      case Err(e) => Err(e)
      case Ok(item) => JoinsFrom(model, joins, i + 1, sql + item.0, fields + item.1)
  }

  lemma {:induction false} JoinsFromGathers(model: ModelSchema, joins: Joins, i: nat, sql: string, fields: seq<string>)
    requires i <= |joins|
    ensures JoinsFrom(model, joins, i, sql, fields) == GatherFrom(JoinItems(model, joins), joins, i, sql, fields)
    decreases |joins| - i
  {
    if i < |joins| {
      var item := JoinItem(model, joins, joins[i]);
      assert JoinItems(model, joins)(joins[i]) == item;
      if item.Ok? {
        JoinsFromGathers(model, joins, i + 1, sql + item.value.0, fields + item.value.1);
      }
    }
  }

  /** The join loop succeeds exactly when the columns and the conditions
      of every join resolve; it then appends, join after join, each join's
      clause to the text and its columns to the fields. */
  lemma JoinsFromFacts(model: ModelSchema, joins: Joins, i: nat, sql: string, fields: seq<string>)
    requires i <= |joins|
    ensures JoinsFrom(model, joins, i, sql, fields).Ok? <==>
      forall j | i <= j < |joins| :: JoinItem(model, joins, joins[j]).Ok?
    ensures JoinsFrom(model, joins, i, sql, fields).Ok? ==>
      JoinsFrom(model, joins, i, sql, fields).value ==
        (sql + Flatten(FirstRuns(JoinItems(model, joins), joins, i)),
         fields + Flatten(SecondRuns(JoinItems(model, joins), joins, i)))
  {
    JoinsFromGathers(model, joins, i, sql, fields);
    GatherFromFacts(JoinItems(model, joins), joins, i, sql, fields);
    assert forall j | i <= j < |joins| :: JoinItems(model, joins)(joins[j]) == JoinItem(model, joins, joins[j]);
  }

  /** `'%s as %s' % (aggregate.sql_expr(field_info), name)` for one annotation. */
  function AnnotationSql(model: ModelSchema, joins: Joins, name: string, a: Aggregate): (r: Result<string>)
    ensures r.Ok? <==> AggregateSql(a, FieldInfo(model, joins, a.field)).Ok?
    ensures r.Ok? ==> r.value == AggregateSql(a, FieldInfo(model, joins, a.field)).value + " as " + name
  {
    match AggregateSql(a, FieldInfo(model, joins, a.field))
    case Err(e) => Err(e)
    case Ok(s) => Ok(s + " as " + name)
  }

  /** The annotation loop: one item per annotation, in order, the first
      failure raised. */
  function AnnotateFrom(model: ModelSchema, joins: Joins, anns: Dict<string, Aggregate>, i: nat, acc: seq<string>): Result<seq<string>>
    requires i <= |anns|
  {
    MapFrom((p: (string, Aggregate)) => AnnotationSql(model, joins, p.0, p.1), anns, i, acc)
  }

  /** The annotation loop succeeds exactly when every aggregate compiles, and
      then adds `<aggregate> as <name>` for each annotation, in order. */
  lemma AnnotateFromItems(model: ModelSchema, joins: Joins, anns: Dict<string, Aggregate>, i: nat, acc: seq<string>)
    requires i <= |anns|
    ensures AnnotateFrom(model, joins, anns, i, acc).Ok? <==>
      forall j | i <= j < |anns| :: AnnotationSql(model, joins, anns[j].0, anns[j].1).Ok?
    ensures AnnotateFrom(model, joins, anns, i, acc).Ok? ==>
      |AnnotateFrom(model, joins, anns, i, acc).value| == |acc| + |anns| - i &&
      AnnotateFrom(model, joins, anns, i, acc).value[..|acc|] == acc &&
      forall j | i <= j < |anns| ::
        AnnotateFrom(model, joins, anns, i, acc).value[|acc| + j - i] == AnnotationSql(model, joins, anns[j].0, anns[j].1).value
  {
    var f := (p: (string, Aggregate)) => AnnotationSql(model, joins, p.0, p.1);
    MapFromOk(f, anns, i, acc);
    if MapFrom(f, anns, i, acc).Ok? {
      MapFromPrefix(f, anns, i, acc);
      MapFromValues(f, anns, i, acc);
    }
  }

  /** How many entries of `d` from position `i` on name a field. */
  function FieldCount(fieldList: seq<string>, d: Dict<string, Term>, i: nat): nat
    requires i <= |d|
    decreases |d| - i
  {
    if i == |d| then 0
    else (if d[i].0 in fieldList then 1 else 0) + FieldCount(fieldList, d, i + 1)
  }

  /** The update loop: keys that are not fields are skipped; an expression
      value is rendered by the where node's `f_expr`. Exactly one assignment
      per field entry is added after the ones already gathered. */
  function UpdateFrom(q: Query, d: Dict<string, Term>, i: nat, keys: seq<string>, params: seq<Value>): (r: Result<(seq<string>, seq<Value>)>)
    requires i <= |d|
    ensures r.Ok? ==> |r.value.0| == |keys| + FieldCount(q.model.fieldList, d, i)
    ensures r.Ok? ==> r.value.0[..|keys|] == keys
    ensures r.Ok? ==> |params| <= |r.value.1| && r.value.1[..|params|] == params
    decreases |d| - i
  {
    if i == |d| then Ok((keys, params))
    else
      match UpdateItem(q, d[i])
      case Err(e) => Err(e)
      case Ok(item) => UpdateFrom(q, d, i + 1, keys + item.0, params + item.1)
  }

  /** What the entry `(key, val)` of the update dictionary adds: nothing
      when `key` is not a field, else `<column> = %s` with the value, or
      `<column> = <expression>` with the expression's literals. */
  function UpdateItem(q: Query, entry: (string, Term)): Result<(seq<string>, seq<Value>)>
  {
    if entry.0 !in q.model.fieldList then Ok(([], []))
    else
      match UpdateValueSql(q.where, entry.1)
      case Err(e) => Err(e)
      case Ok(assign) =>
        match FieldInfo(q.model, q.joins, entry.0)
        case Err(e) => Err(e)
        case Ok(col) => Ok(([col + assign.0], assign.1))
  }

  function UpdateItems(q: Query): ((string, Term)) -> Result<(seq<string>, seq<Value>)>
  {
    entry => UpdateItem(q, entry)
  }

  lemma {:induction false} UpdateFromGathers(q: Query, d: Dict<string, Term>, i: nat, keys: seq<string>, params: seq<Value>)
    requires i <= |d|
    ensures UpdateFrom(q, d, i, keys, params) == GatherFrom(UpdateItems(q), d, i, keys, params)
    decreases |d| - i
  {
    if i < |d| {
      var item := UpdateItem(q, d[i]);
      assert UpdateItems(q)(d[i]) == item;
      if item.Ok? {
        UpdateFromGathers(q, d, i + 1, keys + item.value.0, params + item.value.1);
      }
    }
  }

  /** The update loop succeeds exactly when the value and the column of
      every field entry compile; it then appends, entry after entry, each
      field entry's assignment and its parameters, and nothing for other
      keys. */
  lemma UpdateFromFacts(q: Query, d: Dict<string, Term>, i: nat, keys: seq<string>, params: seq<Value>)
    requires i <= |d|
    ensures UpdateFrom(q, d, i, keys, params).Ok? <==> forall j | i <= j < |d| :: UpdateItem(q, d[j]).Ok?
    ensures UpdateFrom(q, d, i, keys, params).Ok? ==>
      UpdateFrom(q, d, i, keys, params).value ==
        (keys + Flatten(FirstRuns(UpdateItems(q), d, i)), params + Flatten(SecondRuns(UpdateItems(q), d, i)))
  {
    UpdateFromGathers(q, d, i, keys, params);
    GatherFromFacts(UpdateItems(q), d, i, keys, params);
    assert forall j | i <= j < |d| :: UpdateItems(q)(d[j]) == UpdateItem(q, d[j]);
  }

  /** ` = %s` with the value, or ` = <expression>` with its parameters. */
  function UpdateValueSql(w: WhereNode, val: Term): Result<Statement>
  {
    match val
    case Lit(v) => Ok((" = %s", [v]))
    case E(e) =>
      var f :- FExpr(w.model, w.joins, e);
      Ok((" = " + f.0, f.1))
  }

  /** The limit written: the offset alone brings the largest limit. */
  function EffectiveLimit(l: Limits): Option<int>
  {
    if l.limit.None? && l.offset.Some? then Some(MaxLimit) else l.limit
  }

  function LimitSql(l: Limits): string
  {
    (if EffectiveLimit(l).Some? then " limit %s " else "") + (if l.offset.Some? then " offset %s " else "")
  }

  function LimitParams(l: Limits): seq<Value>
  {
    (if EffectiveLimit(l).Some? then [PyInt(EffectiveLimit(l).value)] else []) +
    (if l.offset.Some? then [PyInt(l.offset.value)] else [])
  }

  /** The clauses after the table, shared by every statement kind. */
  datatype Clauses = Clauses(joinFields: seq<string>, tail: string, params: seq<Value>)

  /** Joins, where, group by, order by, limit and offset, in that order. */
  function BuildClauses(q: Query): (r: Result<Clauses>)
    decreases q.where.filter, 6
  {
    var js :- JoinsFrom(q.model, q.joins, 0, "", []);
    var wh :- AsSql(q.where);
    var groups :- ColumnsFrom(q.model, q.joins, q.groupBy, 0, []);
    var orders :- OrderFrom(q.model, q.joins, q.orderFields, 0, []);
    Ok(Clauses(js.1, ClauseText(q, js.0, wh.0, groups, orders), wh.1 + LimitParams(q.limits)))
  }

  /** The text after the table, from the rendered parts. */
  function ClauseText(q: Query, joinSql: string, whereSql: string, groups: seq<string>, orders: seq<string>): string
  {
    joinSql +
    (if Nonempty(q.where.filter) then " where " + whereSql else "") +
    (if |q.groupBy| > 0 then " group by " + Join(groups, ", ") else "") +
    (if |q.orderFields| > 0 then " order by " + Join(orders, " , ") else "") +
    LimitSql(q.limits)
  }

  /** The selected columns: the `select` names, or every field followed by
      the joined models' fields; then the annotations. */
  function SelectColumns(q: Query, joinFields: seq<string>): Result<seq<string>>
  {
    var cols :-
      if |q.select| > 0 then ColumnsFrom(q.model, q.joins, q.select, 0, [])
      else ColumnsFrom(q.model, q.joins, q.model.fieldList, 0, []);
    var anns :- AnnotateFrom(q.model, q.joins, q.annotates, 0, []);
    Ok((if |q.select| > 0 then cols else cols + joinFields) + anns)
  }

  /** `select [distinct] <columns> from <table> <clauses>`, without `;`. */
  function SelectText(q: Query, cols: seq<string>, tail: string): string
  {
    "select " + (if q.distinct then "distinct" else "") + " " + Join(cols, ", ") + " from " + TableRef(q.model) + " " + tail
  }

  /** `Query.sql_expr(method, update_dict)`. */
  function CompileQuery(q: Query, m: Method): (r: Result<Statement>)
    ensures m.UpdateSql? && |m.updates| > 0 && q.limits.offset.Some? && q.limits.offset.value != 0 ==>
      r == Err(TypeError("Cannot update a query once a slice has been taken."))
    ensures (!(m.UpdateSql? && |m.updates| > 0 && q.limits.offset.Some? && q.limits.offset.value != 0) &&
             |q.groupBy| > 0 && (m.DeleteSql? || m.UpdateSql?)) ==>
      r == Err(TypeError("Cannot execute with group by query."))
    decreases q.where.filter, 7
  {
    if m.UpdateSql? && |m.updates| > 0 && q.limits.offset.Some? && q.limits.offset.value != 0 then
      Err(TypeError("Cannot update a query once a slice has been taken."))
    else if |q.groupBy| > 0 && (m.DeleteSql? || m.UpdateSql?) then
      Err(TypeError("Cannot execute with group by query."))
    else
      var cl :- BuildClauses(q);
      var table := TableRef(q.model);
      if m.UpdateSql? && |m.updates| > 0 then
        var u :- UpdateFrom(q, m.updates, 0, [], []);
        Ok(("update " + table + " set " + Join(u.0, ", ") + " " + cl.tail + ";", u.1 + cl.params))
      else if m.DeleteSql? then
        Ok(("delete from " + table + " " + cl.tail + ";", cl.params))
      else
        var cols :- SelectColumns(q, cl.joinFields);
        var subquery := SelectText(q, cols, cl.tail);
        var limit := EffectiveLimit(q.limits);
        if m.CountSql? && (q.distinct || (limit.Some? && limit.value != 0)) then
          Ok(("select count(*) from (" + subquery + ") subquery;", cl.params))
        else if m.CountSql? then
          Ok(("select count(*) from " + table + " " + cl.tail + ";", cl.params))
        else Ok((subquery + ";", cl.params))
  }
}
