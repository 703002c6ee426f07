/** The aggregate functions `annotate` accepts: each wraps the column of one
    field in an SQL function. */
module Aggregates {
  import opened Wrappers

  /** `Aggregate` itself (template `%s`) and its subclasses; `Count` with
      `distinct=True` switches to `count(distinct %s)`. */
  datatype Kind = Plain | Avg | Count | CountDistinct | Max | Min | Sum

  datatype Aggregate = Aggregate(kind: Kind, field: string)

  /** `Count(field, distinct)`. */
  function NewCount(field: string, distinct: bool): (a: Aggregate)
    ensures a.field == field
    ensures a.kind == CountDistinct <==> distinct
    ensures a.kind == Count <==> !distinct
  {
    Aggregate(if distinct then CountDistinct else Count, field)
  }

  /** The class attribute `func`: the SQL template with one `%s`. */
  function Template(k: Kind): string
  {
    match k
    case Plain => "%s"
    case Avg => "avg(%s)"
    case Count => "count(%s)"
    case CountDistinct => "count(distinct %s)"
    case Max => "max(%s)"
    case Min => "min(%s)"
    case Sum => "sum(%s)"
  }

  /** `template % column` for a template whose only directive is `%s`: the
      first `%s` is replaced by the column. */
  function Fill(t: string, c: string): string
    decreases |t|
  {
    if |t| < 2 then t
    else if t[..2] == "%s" then c + t[2..]
    else [t[0]] + Fill(t[1..], c)
  }

  /** The text of the template before `%s`; every template closes with `)`
      except the plain one, which adds nothing. */
  function Opening(k: Kind): string
  {
    match k
    case Plain => ""
    case Avg => "avg("
    case Count => "count("
    case CountDistinct => "count(distinct "
    case Max => "max("
    case Min => "min("
    case Sum => "sum("
  }

  function Closing(k: Kind): string
  {
    if k == Plain then "" else ")"
  }

  /** Each template is its opening text, `%s` and its closing text, and the
      opening text holds no `%`. */
  lemma TemplateParts(k: Kind)
    ensures Template(k) == Opening(k) + "%s" + Closing(k)
    ensures '%' !in Opening(k)
  {
  }

  /** Filling a template whose text before `%s` has no `%` puts the column
      exactly there. */
  lemma {:induction false} FillAt(p: string, q: string, c: string)
    requires '%' !in p
    ensures Fill(p + "%s" + q, c) == p + c + q
    decreases |p|
  {
    var t := p + "%s" + q;
    if |p| == 0 {
      assert t == "%s" + q;
      assert t[..2] == "%s";
      assert t[2..] == q;
    } else {
      assert t[..2] != "%s" by {
        assert t[0] == p[0] && p[0] in p;
      }
      assert t[1..] == p[1..] + "%s" + q;
      FillAt(p[1..], q, c);
      assert [p[0]] + p[1..] == p;
    }
  }

  /** `aggregate.sql_expr(field_func)`: the template filled with the column
      `field_func` gives for the field, or the error it raises. */
  function AggregateSql(a: Aggregate, column: Result<string>): (r: Result<string>)
    ensures r.Err? <==> column.Err?
    ensures r.Err? ==> r.error == column.error
    ensures r.Ok? ==> r.value == Opening(a.kind) + column.value + Closing(a.kind)
  {
    match column
    case Err(e) => Err(e)
    case Ok(c) =>
      TemplateParts(a.kind);
      FillAt(Opening(a.kind), Closing(a.kind), c);
      Ok(Fill(Template(a.kind), c))
  }

  /** The column inside a rendered aggregate of a known kind. */
  function ColumnOf(k: Kind, s: string): string
    requires |s| >= |Opening(k)| + |Closing(k)|
  {
    s[|Opening(k)|..|s| - |Closing(k)|]
  }

  /** Rendering keeps the column intact: it can be read back. */
  lemma ColumnOfAggregateSql(a: Aggregate, c: string)
    ensures AggregateSql(a, Ok(c)).Ok?
    ensures ColumnOf(a.kind, AggregateSql(a, Ok(c)).value) == c
  {
    var s := AggregateSql(a, Ok(c)).value;
    assert s[|Opening(a.kind)|..|s| - |Closing(a.kind)|] == c;
  }
}
