/** The loops of `WhereNode._sql_expr`, `sql_expr`, `as_sql` and
    `Query.sql_expr`, each proved to compute the function of `Compiler` that
    specifies it. */
module CompilerLoops {
  import opened Wrappers
  import opened Text
  import opened Values
  import opened Dicts
  import opened Schema
  import opened Expressions
  import opened Predicates
  import opened Resolve
  import opened Aggregates
  import opened Compiler

  /** A failure in a prefix of the children is the failure of them all. */
  lemma {:induction false} RenderPrefixErr(w: WhereNode, p: Connector, cs: seq<Child<Operand>>, j: nat)
    requires j <= |cs|
    requires RenderChildren(w, p, cs[..j]).Err?
    ensures RenderChildren(w, p, cs) == Err(RenderChildren(w, p, cs[..j]).error)
    decreases |cs| - j
  {
    if j == |cs| {
      assert cs[..j] == cs;
    } else {
      var pre := cs[..j + 1];
      assert pre[..|pre| - 1] == cs[..j];
      RenderPrefixErr(w, p, cs, j + 1);
    }
  }

  /** `_sql_expr(q)`: a leaf compiles with `magic_query`, a nested node
      recursively; a nested node that yields pieces adds one piece, with
      ` not ` before each of its own pieces when negated, joined by its
      connector and parenthesised when that differs from `q`'s. */
  method RenderLoop(w: WhereNode, q: Q<Operand>) returns (r: Result<(seq<string>, seq<Value>)>)
    ensures r == RenderChildren(w, q.connector, q.children)
    decreases q
  {
    var cs := q.children;
    var pieces: seq<string> := [];
    var params: seq<Value> := [];
    var i := 0;
    while i < |cs|
      invariant 0 <= i <= |cs|
      invariant RenderChildren(w, q.connector, cs[..i]) == Ok((pieces, params))
    {
      var child := cs[i];
      assert cs[..i + 1][..i] == cs[..i];
      assert cs[..i + 1][i] == child;
      match child {
        case Leaf(k, v) =>
          var s := MagicQuery(w, k, v);
          if s.Err? {
            RenderPrefixErr(w, q.connector, cs, i + 1);
            return Err(s.error);
          }
          pieces := pieces + [s.value.0];
          params := params + s.value.1;
        case Group(g) =>
          var sub := RenderLoop(w, g);
          if sub.Err? {
            RenderPrefixErr(w, q.connector, cs, i + 1);
            return Err(sub.error);
          }
          if |sub.value.0| > 0 {
            var parts := sub.value.0;
            if g.negated {
              parts := Prefixed(" not ", parts);
            }
            var raw := Join(parts, ConnectorText(g.connector));
            if g.connector != q.connector {
              raw := " ( " + raw + " ) ";
            }
            pieces := pieces + [raw];
            params := params + sub.value.1;
          } else {
            assert pieces + [] == pieces && params + [] == params;
          }
      }
      i := i + 1;
    }
    assert cs[..|cs|] == cs;
    return Ok((pieces, params));
  }

  /** `sql_expr(q)`: the pieces joined by `q`'s connector. */
  method SqlExprLoop(w: WhereNode, q: Q<Operand>) returns (r: Result<Statement>)
    ensures r == SqlExpr(w, q)
  {
    var rendered := RenderLoop(w, q);
    if rendered.Err? {
      return Err(rendered.error);
    }
    return Ok((Join(rendered.value.0, ConnectorText(q.connector)), rendered.value.1));
  }

  /** `as_sql()`. */
  method AsSqlLoop(w: WhereNode) returns (r: Result<Statement>)
    ensures r == AsSql(w)
  {
    if Nonempty(w.filter) {
      r := SqlExprLoop(w, w.filter);
    } else {
      r := Ok(("", []));
    }
  }

  /** `[field_info(x) for x in names]`. */
  method ColumnsLoop(model: ModelSchema, joins: Joins, names: seq<string>) returns (r: Result<seq<string>>)
    ensures r == ColumnsFrom(model, joins, names, 0, [])
  {
    var acc: seq<string> := [];
    var i := 0;
    while i < |names|
      invariant 0 <= i <= |names|
      invariant ColumnsFrom(model, joins, names, i, acc) == ColumnsFrom(model, joins, names, 0, [])
    {
      var col := FieldInfo(model, joins, names[i]);
      if col.Err? {
        return Err(col.error);
      }
      acc := acc + [col.value];
      i := i + 1;
    }
    return Ok(acc);
  }

  /** The order-by loop. */
  method OrderLoop(model: ModelSchema, joins: Joins, fields: seq<string>) returns (r: Result<seq<string>>)
    ensures r == OrderFrom(model, joins, fields, 0, [])
  {
    var acc: seq<string> := [];
    var i := 0;
    while i < |fields|
      invariant 0 <= i <= |fields|
      invariant OrderFrom(model, joins, fields, i, acc) == OrderFrom(model, joins, fields, 0, [])
    {
      var field := fields[i];
      if |field| == 0 {
        return Err(IndexError);
      }
      var item: Result<string>;
      if field[0] == '-' {
        var col := FieldInfo(model, joins, field[1..]);
        if col.Err? {
          return Err(col.error);
        }
        item := Ok(col.value + " desc ");
      } else {
        item := FieldInfo(model, joins, field);
        if item.Err? {
          return Err(item.error);
        }
      }
      acc := acc + [item.value];
      i := i + 1;
    }
    return Ok(acc);
  }

  /** `field_info(k) + ' = ' + field_info(v)` over the pairs of one join. */
  method OnLoop(model: ModelSchema, joins: Joins, on: seq<(string, string)>) returns (r: Result<seq<string>>)
    ensures r == OnFrom(model, joins, on, 0, [])
  {
    var acc: seq<string> := [];
    var i := 0;
    while i < |on|
      invariant 0 <= i <= |on|
      invariant OnFrom(model, joins, on, i, acc) == OnFrom(model, joins, on, 0, [])
    {
      var l := FieldInfo(model, joins, on[i].0);
      if l.Err? {
        return Err(l.error);
      }
      var rr := FieldInfo(model, joins, on[i].1);
      if rr.Err? {
        return Err(rr.error);
      }
      acc := acc + [l.value + " = " + rr.value];
      i := i + 1;
    }
    return Ok(acc);
  }

  /** The join loop: the join clauses and the joined models' columns. */
  method JoinLoop(model: ModelSchema, joins: Joins) returns (r: Result<(string, seq<string>)>)
    ensures r == JoinsFrom(model, joins, 0, "", [])
  {
    var sql := "";
    var fields: seq<string> := [];
    var i := 0;
    while i < |joins|
      invariant 0 <= i <= |joins|
      invariant JoinsFrom(model, joins, i, sql, fields) == JoinsFrom(model, joins, 0, "", [])
    {
      var (alias, info) := joins[i];
      var jf := ColumnsLoop(model, joins, AliasNames(alias, info.model.fieldList));
      if jf.Err? {
        return Err(jf.error);
      }
      var ons := OnLoop(model, joins, info.on);
      if ons.Err? {
        return Err(ons.error);
      }
      fields := fields + jf.value;
      sql := sql + JoinClause(info, ons.value);
      i := i + 1;
    }
    return Ok((sql, fields));
  }

  /** `'%s as %s' % (v.sql_expr(field_info), k)` for every annotation. */
  method AnnotateLoop(model: ModelSchema, joins: Joins, anns: Dict<string, Aggregate>) returns (r: Result<seq<string>>)
    ensures r == AnnotateFrom(model, joins, anns, 0, [])
  {
    var acc: seq<string> := [];
    var i := 0;
    while i < |anns|
      invariant 0 <= i <= |anns|
      invariant AnnotateFrom(model, joins, anns, i, acc) == AnnotateFrom(model, joins, anns, 0, [])
    {
      var (name, agg) := anns[i];
      var s := AggregateSql(agg, FieldInfo(model, joins, agg.field));
      if s.Err? {
        return Err(s.error);
      }
      acc := acc + [s.value + " as " + name];
      i := i + 1;
    }
    return Ok(acc);
  }

  /** The update loop: non-field keys skipped, expressions through `f_expr`. */
  method UpdateLoop(q: Query, d: Dict<string, Term>) returns (r: Result<(seq<string>, seq<Value>)>)
    ensures r == UpdateFrom(q, d, 0, [], [])
  {
    var keys: seq<string> := [];
    var params: seq<Value> := [];
    var i := 0;
    while i < |d|
      invariant 0 <= i <= |d|
      invariant UpdateFrom(q, d, i, keys, params) == UpdateFrom(q, d, 0, [], [])
    {
      var (key, val) := d[i];
      if key in q.model.fieldList {
        var assign := UpdateValueSql(q.where, val);
        if assign.Err? {
          return Err(assign.error);
        }
        var col := FieldInfo(q.model, q.joins, key);
        if col.Err? {
          return Err(col.error);
        }
        assert UpdateItem(q, d[i]) == Ok(([col.value + assign.value.0], assign.value.1));
        keys := keys + [col.value + assign.value.0];
        params := params + assign.value.1;
      } else {
        assert UpdateItem(q, d[i]) == Ok(([], [])) && keys + [] == keys && params + [] == params;
      }
      i := i + 1;
    }
    return Ok((keys, params));
  }

  /** The clauses after the table: joins, where, group by, order by, limit
      and offset. */
  method ClausesLoop(q: Query) returns (r: Result<Clauses>)
    ensures r == BuildClauses(q)
  {
    var js := JoinLoop(q.model, q.joins);
    if js.Err? {
      return Err(js.error);
    }
    var wh := AsSqlLoop(q.where);
    if wh.Err? {
      return Err(wh.error);
    }
    var wherePart := "";
    if Nonempty(q.where.filter) {
      wherePart := " where " + wh.value.0;
    }
    var groups := ColumnsLoop(q.model, q.joins, q.groupBy);
    if groups.Err? {
      return Err(groups.error);
    }
    var groupPart := "";
    if |q.groupBy| > 0 {
      groupPart := " group by " + Join(groups.value, ", ");
    }
    var orders := OrderLoop(q.model, q.joins, q.orderFields);
    if orders.Err? {
      return Err(orders.error);
    }
    var orderPart := "";
    if |q.orderFields| > 0 {
      orderPart := " order by " + Join(orders.value, " , ");
    }
    var whereExpr := js.value.0 + wherePart + groupPart + orderPart + LimitSql(q.limits);
    return Ok(Clauses(js.value.1, whereExpr, wh.value.1 + LimitParams(q.limits)));
  }

  /** `Query.sql_expr(method, update_dict)`. */
  method QuerySqlExpr(q: Query, m: Method) returns (r: Result<Statement>)
    ensures r == CompileQuery(q, m)
  {
    if m.UpdateSql? && |m.updates| > 0 && q.limits.offset.Some? && q.limits.offset.value != 0 {
      return Err(TypeError("Cannot update a query once a slice has been taken."));
    }
    if |q.groupBy| > 0 && (m.DeleteSql? || m.UpdateSql?) {
      return Err(TypeError("Cannot execute with group by query."));
    }
    var cl := ClausesLoop(q);
    if cl.Err? {
      return Err(cl.error);
    }
    var table := TableRef(q.model);
    if m.UpdateSql? && |m.updates| > 0 {
      var u := UpdateLoop(q, m.updates);
      if u.Err? {
        return Err(u.error);
      }
      return Ok(("update " + table + " set " + Join(u.value.0, ", ") + " " + cl.value.tail + ";", u.value.1 + cl.value.params));
    } else if m.DeleteSql? {
      return Ok(("delete from " + table + " " + cl.value.tail + ";", cl.value.params));
    }
    var cols := ColumnsLoop(q.model, q.joins, if |q.select| > 0 then q.select else q.model.fieldList);
    if cols.Err? {
      return Err(cols.error);
    }
    var fieldList := cols.value;
    if |q.select| == 0 {
      fieldList := fieldList + cl.value.joinFields;
    }
    var anns := AnnotateLoop(q.model, q.joins, q.annotates);
    if anns.Err? {
      return Err(anns.error);
    }
    fieldList := fieldList + anns.value;
    assert SelectColumns(q, cl.value.joinFields) == Ok(fieldList);
    var subquery := SelectText(q, fieldList, cl.value.tail);
    var limit := EffectiveLimit(q.limits);
    if m.CountSql? && (q.distinct || (limit.Some? && limit.value != 0)) {
      return Ok(("select count(*) from (" + subquery + ") subquery;", cl.value.params));
    } else if m.CountSql? {
      return Ok(("select count(*) from " + table + " " + cl.value.tail + ";", cl.value.params));
    }
    return Ok((subquery + ";", cl.value.params));
  }
}
