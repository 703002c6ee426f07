/** What the where-clause and statement compiler promises: the SQL of each
    kind of lookup, the rendering of the trees `filter` and `exclude` build,
    the order of the parameters and the shape of the `count` statement. */
module CompilerFacts {
  import opened Wrappers
  import opened Text
  import opened Values
  import opened Dicts
  import opened Schema
  import opened Expressions
  import opened Predicates
  import opened Resolve
  import opened Compiler

  // ---------------------------------------------------------------------------
  // Leaves

  /** `field__lookup` on a field of the model (or on `pk`) is read as that
      field and that lookup. */
  lemma LookupOnField(w: WhereNode, field: string, magic: string)
    requires field != ""
    requires field in w.model.fieldList || (field == PrimaryKeyAlias && HasPrimaryKey(w.model))
    requires !Contains(field + "_", Dunder) && !Contains(magic, Dunder)
    ensures LookupTarget(w, field + Dunder + magic) == Ok((w.model, field, magic))
  {
    assert Dunder[..|Dunder| - 1] == "_";
    SplitPair(field, Dunder, magic);
    SplitMany(field + Dunder + magic, Dunder);
    var parts := Split(field + Dunder + magic, Dunder);
    assert parts[1..] == [magic];
  }

  /** The SQL of `field__lookup=v` for every kind of lookup on a field of the
      model: the fixed comparison templates with `[v]`, `isnull` by the truth
      of `v` without parameters, `range` with the elements of `v`, `in` with
      one tuple parameter (` False ` for an empty value), and an unknown
      lookup as nothing at all. */
  lemma MagicQueryOnField(w: WhereNode, field: string, magic: string, v: Value, col: string)
    requires field != ""
    requires field in w.model.fieldList || (field == PrimaryKeyAlias && HasPrimaryKey(w.model))
    requires !Contains(field + "_", Dunder) && !Contains(magic, Dunder)
    requires ColumnRef(w.model, field) == Ok(col)
    ensures LookupTemplate(magic).Some? ==>
      MagicQuery(w, field + Dunder + magic, Val(v)) == Ok((" " + col + LookupTemplate(magic).value, [v]))
    ensures magic == "isnull" ==>
      MagicQuery(w, field + Dunder + magic, Val(v)) ==
        Ok((" " + col + (if Truthy(v) then " is null " else " is not null "), []))
    ensures magic == "range" && Elements(v).Ok? ==>
      MagicQuery(w, field + Dunder + magic, Val(v)) == Ok((" " + col + " between %s and %s ", Elements(v).value))
    ensures magic == "in" && Length(v) == Ok(0) ==>
      MagicQuery(w, field + Dunder + magic, Val(v)) == Ok((" False ", []))
    ensures magic == "in" && Length(v).Ok? && Length(v).value > 0 ==>
      MagicQuery(w, field + Dunder + magic, Val(v)) == Ok((" " + col + " in %s ", [PyTuple(Elements(v).value)]))
    ensures magic == "in" && Length(v).Err? ==> MagicQuery(w, field + Dunder + magic, Val(v)).Err?
    ensures LookupTemplate(magic).None? && magic !in {"isnull", "range", "in"} ==>
      MagicQuery(w, field + Dunder + magic, Val(v)) == Ok(("", []))
  {
    LookupOnField(w, field, magic);
    if LookupTemplate(magic).Some? {
    } else if magic == "isnull" {
    } else if magic == "range" {
    } else if magic == "in" {
    }
  }

  /** A key without `__` compares the column of that name for equality:
      with `[v]` for a plain value, and with the expression's SQL in place of
      the placeholder and its parameters for an `F` expression. */
  lemma MagicQueryPlainKey(w: WhereNode, key: string, col: string, v: Value, e: Expr)
    requires !Contains(key, Dunder)
    requires ColumnRef(w.model, key) == Ok(col)
    requires forall k | 0 <= k < |col| :: col[k] != '%'
    ensures MagicQuery(w, key, Val(v)) == Ok((" " + col + " = %s ", [v]))
    ensures FExpr(w.model, w.joins, e).Ok? ==>
      MagicQuery(w, key, Ex(e)) ==
        Ok((" " + col + " = " + FExpr(w.model, w.joins, e).value.0 + " ", Literals(e)))
    ensures FExpr(w.model, w.joins, e).Err? ==> MagicQuery(w, key, Ex(e)) == Err(FExpr(w.model, w.joins, e).error)
  {
    if FExpr(w.model, w.joins, e).Ok? {
      FExprFacts(w.model, w.joins, e);
      var x := " " + col + " = ";
      forall k | 0 <= k < |x| ensures x[k] != '%' {
        if 1 <= k < 1 + |col| {
          assert x[k] == col[k - 1];
        }
      }
      PlaceholderFree(x);
      assert !Contains(" ", "%s");
      assert " " + col + LookupTemplate("").value == x + "%s" + " ";
      assert "%s"[..|"%s"| - 1] == "%";
      ReplaceOne(x, "%s", " ", FExpr(w.model, w.joins, e).value.0);
    }
  }

  /** A text without `%` cannot contain a placeholder, even with one `%` more
      at its end. */
  lemma {:induction false} PlaceholderFree(x: string)
    requires forall k | 0 <= k < |x| :: x[k] != '%'
    ensures !Contains(x + "%", "%s")
    decreases |x|
  {
    if |x| > 0 {
      PlaceholderFree(x[1..]);
      assert (x + "%")[1..] == x[1..] + "%";
      assert (x + "%")[0] == x[0];
    }
  }

  /** A keyword whose first part is neither a field of the model (nor `pk`
      with a primary key) nor a join alias cannot be resolved. */
  lemma MagicQueryUnresolved(w: WhereNode, head: string, rest: string, value: Operand)
    requires !Contains(head + "_", Dunder)
    requires head !in w.model.fieldList && !(head == PrimaryKeyAlias && HasPrimaryKey(w.model))
    requires Get(w.joins, head).None?
    ensures MagicQuery(w, head + Dunder + rest, value) == Err(Unresolved(head))
  {
    assert Dunder[..|Dunder| - 1] == "_";
    SplitAfter(head, Dunder, rest);
    SplitMany(head + Dunder + rest, Dunder);
  }

  /** `field__in=<query set>`: the inner SELECT, without its final `;`, in
      parentheses, with the inner parameters; refused across hosts and when
      the sub-query cannot select exactly one column. */
  lemma InLookupQuerySet(w: WhereNode, target: ModelSchema, col: string, mode: Mode, sq: Query)
    ensures w.model.config.host != sq.model.config.host ==>
      InLookup(w, target, col, Sub(mode, sq)) ==
        Err(TypeError(target.name + " and " + sq.model.name + " are not in the same database "))
    ensures w.model.config.host == sq.model.config.host && SubQuery(mode, sq).Err? ==>
      InLookup(w, target, col, Sub(mode, sq)) == Err(SubQuery(mode, sq).error)
    ensures w.model.config.host == sq.model.config.host && SubQuery(mode, sq).Ok? &&
            CompileQuery(SubQuery(mode, sq).value, SelectSql).Ok? ==>
      var st := CompileQuery(SubQuery(mode, sq).value, SelectSql).value;
      st.0 == DropLast(st.0) + ";" &&
      InLookup(w, target, col, Sub(mode, sq)) == Ok((" " + col + " in ( " + DropLast(st.0) + " ) ", st.1))
  {
    if w.model.config.host == sq.model.config.host && SubQuery(mode, sq).Ok? &&
       CompileQuery(SubQuery(mode, sq).value, SelectSql).Ok? {
      CompileEndsWithSemicolon(SubQuery(mode, sq).value, SelectSql);
    }
  }

  // ---------------------------------------------------------------------------
  // Rendering

  /** Rendering children one after another: the pieces and the parameters of
      the first run come before those of the second. */
  lemma {:induction false} RenderChildrenAppend(w: WhereNode, p: Connector, xs: seq<Child<Operand>>, ys: seq<Child<Operand>>)
    ensures RenderChildren(w, p, xs + ys).Ok? <==> RenderChildren(w, p, xs).Ok? && RenderChildren(w, p, ys).Ok?
    ensures RenderChildren(w, p, xs + ys).Ok? ==>
      RenderChildren(w, p, xs + ys).value ==
        (RenderChildren(w, p, xs).value.0 + RenderChildren(w, p, ys).value.0,
         RenderChildren(w, p, xs).value.1 + RenderChildren(w, p, ys).value.1)
    decreases |ys|
  {
    if |ys| == 0 {
      assert xs + ys == xs;
      assert RenderChildren(w, p, ys) == Ok(([], []));
      if RenderChildren(w, p, xs).Ok? {
        var x := RenderChildren(w, p, xs).value;
        assert x.0 + [] == x.0 && x.1 + [] == x.1;
      }
    } else {
      var init := ys[..|ys| - 1];
      var last := ys[|ys| - 1];
      assert (xs + ys)[..|xs + ys| - 1] == xs + init;
      assert (xs + ys)[|xs + ys| - 1] == last;
      RenderChildrenAppend(w, p, xs, init);
      var a := RenderChildren(w, p, xs + init);
      var b := RenderChild(w, p, last);
      assert RenderChildren(w, p, xs + ys) ==
        (if a.Err? then Err(a.error) else if b.Err? then Err(b.error) else Ok((a.value.0 + b.value.0, a.value.1 + b.value.1)));
      var c := RenderChildren(w, p, init);
      assert RenderChildren(w, p, ys) ==
        (if c.Err? then Err(c.error) else if b.Err? then Err(b.error) else Ok((c.value.0 + b.value.0, c.value.1 + b.value.1)));
      if a.Ok? && b.Ok? {
        var x := RenderChildren(w, p, xs).value;
        assert a.value.0 + b.value.0 == x.0 + (c.value.0 + b.value.0);
        assert a.value.1 + b.value.1 == x.1 + (c.value.1 + b.value.1);
      }
    }
  }

  /** A child that holds no leaf contributes no piece and no parameter. */
  lemma {:induction false} SilentChild(w: WhereNode, p: Connector, c: Child<Operand>)
    requires !Rendered(c)
    ensures RenderChild(w, p, c) == Ok(([], []))
    decreases c, 0
  {
    match c
    case Group(g) =>
      SilentChildren(w, g.connector, g.children);
  }

  lemma {:induction false} SilentChildren(w: WhereNode, p: Connector, cs: seq<Child<Operand>>)
    requires forall i | 0 <= i < |cs| :: !Rendered(cs[i])
    ensures RenderChildren(w, p, cs) == Ok(([], []))
    decreases cs, 1
  {
    if |cs| > 0 {
      var init := cs[..|cs| - 1];
      assert forall i | 0 <= i < |init| :: init[i] == cs[i];
      SilentChildren(w, p, init);
      var last := cs[|cs| - 1];
      SilentChild(w, p, last);
      var a := RenderChildren(w, p, init).value;
      var b := RenderChild(w, p, last).value;
      assert RenderChildren(w, p, cs) == Ok((a.0 + b.0, a.1 + b.1));
      assert a.0 + b.0 == [] && a.1 + b.1 == [];
    }
  }

  /** The outermost node's negation does not reach the SQL. */
  lemma SqlExprIgnoresNegation(w: WhereNode, q: Q<Operand>)
    ensures SqlExpr(w, q) == SqlExpr(w, q.(negated := !q.negated))
  {
    assert q.(negated := !q.negated).children == q.children;
  }

  /** Leaves that each compile. */
  predicate LeavesCompile(w: WhereNode, cs: seq<Child<Operand>>)
  {
    forall i | 0 <= i < |cs| :: cs[i].Leaf? && MagicQuery(w, cs[i].key, cs[i].value).Ok?
  }

  /** The SQL of each leaf, in order. */
  function LeafPieces(w: WhereNode, cs: seq<Child<Operand>>): (r: seq<string>)
    requires LeavesCompile(w, cs)
    ensures |r| == |cs|
  {
    seq(|cs|, i requires 0 <= i < |cs| && LeavesCompile(w, cs) => MagicQuery(w, cs[i].key, cs[i].value).value.0)
  }

  /** The parameters of every leaf, in order. */
  function LeafParams(w: WhereNode, cs: seq<Child<Operand>>): seq<Value>
    requires LeavesCompile(w, cs)
  {
    if |cs| == 0 then []
    else LeafParams(w, cs[..|cs| - 1]) + MagicQuery(w, cs[|cs| - 1].key, cs[|cs| - 1].value).value.1
  }

  /** Leaves render to their own SQL, one piece each, parameters in order. */
  lemma {:induction false} RenderLeaves(w: WhereNode, p: Connector, cs: seq<Child<Operand>>)
    requires LeavesCompile(w, cs)
    ensures RenderChildren(w, p, cs) == Ok((LeafPieces(w, cs), LeafParams(w, cs)))
    decreases |cs|
  {
    if |cs| > 0 {
      var init := cs[..|cs| - 1];
      assert LeavesCompile(w, init) by {
        assert forall i | 0 <= i < |init| :: init[i] == cs[i];
      }
      RenderLeaves(w, p, init);
      var last := cs[|cs| - 1];
      var mq := MagicQuery(w, last.key, last.value).value;
      RenderLeaf(w, p, last);
      assert RenderChildren(w, p, cs) == Ok((LeafPieces(w, init) + [mq.0], LeafParams(w, init) + mq.1));
      LeafPiecesLast(w, cs);
    }
  }

  lemma LeafPiecesLast(w: WhereNode, cs: seq<Child<Operand>>)
    requires |cs| > 0 && LeavesCompile(w, cs)
    ensures LeavesCompile(w, cs[..|cs| - 1])
    ensures LeafPieces(w, cs) ==
      LeafPieces(w, cs[..|cs| - 1]) + [MagicQuery(w, cs[|cs| - 1].key, cs[|cs| - 1].value).value.0]
  {
    var init := cs[..|cs| - 1];
    assert forall i | 0 <= i < |init| :: init[i] == cs[i];
  }

  lemma RenderLeaf(w: WhereNode, p: Connector, c: Child<Operand>)
    requires c.Leaf? && MagicQuery(w, c.key, c.value).Ok?
    ensures RenderChild(w, p, c) == Ok(([MagicQuery(w, c.key, c.value).value.0], MagicQuery(w, c.key, c.value).value.1))
  {
  }

  /** The keyword arguments of `filter` / `exclude` as leaves. */
  function KwargLeaves(kw: Dict<string, Operand>): (cs: seq<Child<Operand>>)
    ensures |cs| == |kw| && AllLeaves(cs)
    ensures forall i | 0 <= i < |kw| :: cs[i] == Leaf(kw[i].0, kw[i].1)
  {
    seq(|kw|, i requires 0 <= i < |kw| => Leaf(kw[i].0, kw[i].1))
  }

  /** `filter(**kw)` on a query without conditions gives the leaves' SQL
      joined by `AND`; `exclude(**kw)` puts ` not ` before every one of them
      (so `exclude(a=1, b=2)` reads `not a AND not b`). The parameters are
      the leaves' parameters in order either way. */
  lemma FilterLeavesSql(w: WhereNode, kw: Dict<string, Operand>, negate: bool)
    requires w.filter == Q(AND, false, [])
    requires LeavesCompile(w, KwargLeaves(kw))
    ensures var q := MakeQ(New([], kw).(negated := negate));
            var cs := KwargLeaves(kw);
            AsSql(w.(filter := AddQ(w.filter, q))) ==
              Ok((Join(if negate then Prefixed(" not ", LeafPieces(w, cs)) else LeafPieces(w, cs), "AND"),
                  LeafParams(w, cs)))
  {
    var cs := KwargLeaves(kw);
    FilterTree(kw, negate);
    var q := MakeQ(New([], kw).(negated := negate));
    var w2 := w.(filter := AddQ(w.filter, q));
    LeavesSameNode(w, w2, cs);
    RenderFiltered(w2, cs, negate);
  }

  /** The tree `filter` / `exclude` adds to an empty filter: the leaves
      themselves, or one negated node holding them. */
  lemma FilterTree(kw: Dict<string, Operand>, negate: bool)
    ensures var q := MakeQ(New([], kw).(negated := negate));
            AddQ(Q(AND, false, []), q) ==
              if negate then Q(AND, false, [Group(Q(AND, true, KwargLeaves(kw)))])
              else Q(AND, false, KwargLeaves(kw))
  {
    var cs := KwargLeaves(kw);
    var t := New([], kw).(negated := negate);
    assert t.children == cs;
    MakeChildrenLeaves(AND, cs);
    assert MakeQ(t) == Q(AND, negate, cs);
  }

  lemma RenderFiltered(w: WhereNode, cs: seq<Child<Operand>>, negate: bool)
    requires LeavesCompile(w, cs)
    requires w.filter == if negate then Q(AND, false, [Group(Q(AND, true, cs))]) else Q(AND, false, cs)
    ensures AsSql(w) == Ok((Join(if negate then Prefixed(" not ", LeafPieces(w, cs)) else LeafPieces(w, cs), "AND"),
                            LeafParams(w, cs)))
  {
    if negate {
      RenderNegated(w, cs);
    } else {
      RenderLeaves(w, AND, cs);
      if |cs| > 0 {
        assert Nonempty(w.filter);
      } else {
        assert LeafPieces(w, cs) == [];
      }
    }
  }

  lemma RenderNegated(w: WhereNode, cs: seq<Child<Operand>>)
    requires LeavesCompile(w, cs)
    requires w.filter == Q(AND, false, [Group(Q(AND, true, cs))])
    ensures AsSql(w) == Ok((Join(Prefixed(" not ", LeafPieces(w, cs)), "AND"), LeafParams(w, cs)))
  {
    var g := Group(Q(AND, true, cs));
    assert Nonempty(w.filter);
    if |cs| == 0 {
      SilentChildren(w, AND, [g]);
      assert LeafPieces(w, cs) == [];
    } else {
      RenderLeaves(w, AND, cs);
      RenderGroup(w, AND, g);
      RenderSingle(w, AND, g);
    }
  }

  /** A one-child list renders as that child. */
  lemma RenderSingle(w: WhereNode, p: Connector, c: Child<Operand>)
    ensures RenderChildren(w, p, [c]) == RenderChild(w, p, c)
  {
    assert [c][..0] == [];
    assert RenderChildren(w, p, []) == Ok(([], []));
    if RenderChild(w, p, c).Ok? {
      var b := RenderChild(w, p, c).value;
      assert [] + b.0 == b.0 && [] + b.1 == b.1;
    }
  }

  /** A negated AND group under an AND parent with at least one piece. */
  lemma RenderGroup(w: WhereNode, p: Connector, c: Child<Operand>)
    requires c.Group? && c.q.negated && c.q.connector == p
    requires RenderChildren(w, p, c.q.children).Ok? && |RenderChildren(w, p, c.q.children).value.0| > 0
    ensures RenderChild(w, p, c) ==
      Ok(([Join(Prefixed(" not ", RenderChildren(w, p, c.q.children).value.0), ConnectorText(p))],
          RenderChildren(w, p, c.q.children).value.1))
  {
  }

  /** Leaves compile against the model and the joins only, not the filter. */
  lemma {:induction false} LeavesSameNode(w: WhereNode, w2: WhereNode, cs: seq<Child<Operand>>)
    requires w2.model == w.model && w2.joins == w.joins
    requires LeavesCompile(w, cs)
    ensures LeavesCompile(w2, cs)
    ensures LeafPieces(w2, cs) == LeafPieces(w, cs) && LeafParams(w2, cs) == LeafParams(w, cs)
    decreases |cs|
  {
    forall i | 0 <= i < |cs| ensures MagicQuery(w2, cs[i].key, cs[i].value) == MagicQuery(w, cs[i].key, cs[i].value) {
      MagicQuerySameNode(w, w2, cs[i].key, cs[i].value);
    }
    if |cs| > 0 {
      var init := cs[..|cs| - 1];
      assert forall i | 0 <= i < |init| :: init[i] == cs[i];
      LeavesSameNode(w, w2, init);
    }
  }

  lemma MagicQuerySameNode(w: WhereNode, w2: WhereNode, key: string, value: Operand)
    requires w2.model == w.model && w2.joins == w.joins
    ensures MagicQuery(w2, key, value) == MagicQuery(w, key, value)
  {
    assert LookupTarget(w2, key) == LookupTarget(w, key);
  }

  /** `exclude()` without conditions leaves a filter that is not empty but
      renders to nothing, so the statement gets ` where ` followed by no
      condition. */
  lemma ExcludeNothing(q: Query)
    requires q.where.filter == Q(AND, false, [])
    ensures var w := q.where.(filter := AddQ(q.where.filter, MakeQ(New<Operand>([], []).(negated := true))));
            Nonempty(w.filter) && AsSql(w) == Ok(("", []))
  {
    var w := q.where.(filter := AddQ(q.where.filter, MakeQ(New<Operand>([], []).(negated := true))));
    SilentChildren(w, AND, w.filter.children);
  }

  // ---------------------------------------------------------------------------
  // Query.sql_expr

  /** Every statement ends with `;`. */
  lemma CompileEndsWithSemicolon(q: Query, m: Method)
    requires CompileQuery(q, m).Ok?
    ensures var s := CompileQuery(q, m).value.0; |s| > 0 && s[|s| - 1] == ';'
  {
    var cl := BuildClauses(q).value;
    var table := TableRef(q.model);
    var head: string;
    if m.UpdateSql? && |m.updates| > 0 {
      var u := UpdateFrom(q, m.updates, 0, [], []).value;
      head := "update " + table + " set " + Join(u.0, ", ") + " " + cl.tail;
    } else if m.DeleteSql? {
      head := "delete from " + table + " " + cl.tail;
    } else {
      var cols := SelectColumns(q, cl.joinFields).value;
      var subquery := SelectText(q, cols, cl.tail);
      var limit := EffectiveLimit(q.limits);
      if m.CountSql? && (q.distinct || (limit.Some? && limit.value != 0)) {
        head := "select count(*) from (" + subquery + ") subquery";
      } else if m.CountSql? {
        head := "select count(*) from " + table + " " + cl.tail;
      } else {
        head := subquery;
      }
    }
    assert CompileQuery(q, m).value.0 == head + ";";
  }

  /** The parameters: the assignments of an update first, then the where
      clause's, then the limit and the offset. */
  lemma CompileParams(q: Query, m: Method)
    requires CompileQuery(q, m).Ok?
    ensures AsSql(q.where).Ok?
    ensures m.UpdateSql? && |m.updates| > 0 ==>
      UpdateFrom(q, m.updates, 0, [], []).Ok? &&
      CompileQuery(q, m).value.1 == UpdateFrom(q, m.updates, 0, [], []).value.1 + AsSql(q.where).value.1 + LimitParams(q.limits)
    ensures !(m.UpdateSql? && |m.updates| > 0) ==>
      CompileQuery(q, m).value.1 == AsSql(q.where).value.1 + LimitParams(q.limits)
  {
    assert BuildClauses(q).Ok?;
  }

  /** With only an offset the limit is MySQL's largest, written before the
      offset; without either nothing is added. */
  lemma LimitOffsetOnly(l: Limits)
    ensures l.limit.None? && l.offset.Some? ==>
      LimitSql(l) == " limit %s  offset %s " && LimitParams(l) == [PyInt(MaxLimit), PyInt(l.offset.value)]
    ensures l.limit.None? && l.offset.None? ==> LimitSql(l) == "" && LimitParams(l) == []
    ensures l.limit.Some? ==> LimitParams(l)[0] == PyInt(l.limit.value)
  {
  }

  /** `count()` fails exactly when the select fails, with the same
      parameters; a distinct or limited query is counted around the whole
      select (without its `;`), any other over the table and the clauses. */
  lemma CountWrapsSelect(q: Query)
    ensures CompileQuery(q, CountSql).Ok? <==> CompileQuery(q, SelectSql).Ok?
    ensures CompileQuery(q, SelectSql).Ok? ==>
      var sel := CompileQuery(q, SelectSql).value;
      var cnt := CompileQuery(q, CountSql).value;
      var limit := EffectiveLimit(q.limits);
      cnt.1 == sel.1 &&
      (q.distinct || (limit.Some? && limit.value != 0) ==>
        cnt.0 == "select count(*) from (" + DropLast(sel.0) + ") subquery;") &&
      (!(q.distinct || (limit.Some? && limit.value != 0)) ==>
        cnt.0 == "select count(*) from " + TableRef(q.model) + " " + BuildClauses(q).value.tail + ";")
  {
    if CompileQuery(q, SelectSql).Ok? {
      var sel := CompileQuery(q, SelectSql).value;
      var cl := BuildClauses(q).value;
      var cols := SelectColumns(q, cl.joinFields).value;
      assert sel.0 == SelectText(q, cols, cl.tail) + ";";
      assert DropLast(sel.0) == SelectText(q, cols, cl.tail);
    }
  }

  /** An update sets one column per field entry; entries that are not fields
      are skipped. */
  lemma UpdateSkipsNonFields(q: Query, d: Dict<string, Term>)
    requires forall i | 0 <= i < |d| :: d[i].0 !in q.model.fieldList
    ensures UpdateFrom(q, d, 0, [], []) == Ok(([], []))
  {
    NoFieldEntries(q, d, 0);
  }

  lemma {:induction false} NoFieldEntries(q: Query, d: Dict<string, Term>, i: nat)
    requires i <= |d|
    requires forall j | i <= j < |d| :: d[j].0 !in q.model.fieldList
    ensures UpdateFrom(q, d, i, [], []) == Ok(([], []))
    decreases |d| - i
  {
    if i < |d| {
      NoFieldEntries(q, d, i + 1);
    }
  }
}
