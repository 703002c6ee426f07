/** Column expressions: `F(name)` names a column and the arithmetic operators
    of `Combinable` build `CombinedExpression` trees whose operands are further
    expressions or plain Python values. */
module Expressions {
  import opened Wrappers
  import opened Values

  /** The six operators `Combinable` overloads. */
  datatype Op = Plus | Minus | Times | Divide | Modulo | Power

  /** An expression tree. A combined node keeps the connector text it was
      built with; it becomes the SQL operator when rendered. */
  datatype Expr =
    | F(name: string)
    | Combined(lhs: Term, connector: string, rhs: Term)

  /** An operand of a combined node: an expression or a plain value. */
  datatype Term = E(e: Expr) | Lit(v: Value)

  /** The connector of `x op y` when `x` is an expression (`__add__` ...). */
  function Connector(op: Op): string
  {
    match op
    case Plus => " + "
    case Minus => " - "
    case Times => " * "
    case Divide => " / "
    case Modulo => " %% "
    case Power => " ~ "
  }

  /** The connector of `v op e` for a plain `v`: Python falls back to the
      reflected method of `e` (`__radd__` ...), which keeps `v` on the left. */
  function ReflectedConnector(op: Op): string
  {
    if op == Power then " ^ " else Connector(op)
  }

  /** Only exponentiation renders differently when the expression stands on
      the right of a plain value. */
  lemma ReflectedDiffersOnlyForPower(op: Op)
    ensures ReflectedConnector(op) == Connector(op) <==> op != Power
  {
  }

  /** A `str` left of `%` formats itself (`str.__mod__`) and never defers
      to the expression's reflected method. */
  predicate Formats(x: Term, op: Op)
  {
    op == Modulo && x.Lit? && x.v.PyStr?
  }

  /** `x op y` where at least one side is an expression: the left operand's
      own method when it is an expression, otherwise the right operand's
      reflected method, which every plain value defers to except a string
      under `%`. An expression is built with its operands in order. A
      string without `%` raises the formatting TypeError; one with a
      directive formats the expression's text, which this model leaves out. */
  function Apply(x: Term, op: Op, y: Term): (r: Result<Expr>)
    requires x.E? || y.E?
    ensures r.Ok? <==> !Formats(x, op)
    ensures r.Ok? ==> r.value.Combined? && r.value.lhs == x && r.value.rhs == y
    ensures x.E? ==> r == Ok(Combined(x, Connector(op), y))
    ensures x.Lit? && !Formats(x, op) ==> r == Ok(Combined(x, ReflectedConnector(op), y))
    ensures Formats(x, op) && '%' !in x.v.s ==>
      r == Err(TypeError("not all arguments converted during string formatting"))
  {
    if x.E? then Ok(Combined(x, Connector(op), y))
    else if x.v.PyStr? && op == Modulo then
      if '%' in x.v.s then Err(Unsupported("formatting a string with an expression"))
      else Err(TypeError("not all arguments converted during string formatting"))
    else Ok(Combined(x, ReflectedConnector(op), y))
  }

  /** The plain values of an expression, left to right. */
  function Literals(e: Expr): seq<Value>
  {
    match e
    case F(_) => []
    case Combined(lhs, _, rhs) => TermLiterals(lhs) + TermLiterals(rhs)
  }

  function TermLiterals(t: Term): seq<Value>
  {
    match t
    case E(e) => Literals(e)
    case Lit(v) => [v]
  }

  /** The column names an expression refers to, left to right. */
  function Names(e: Expr): seq<string>
  {
    match e
    case F(name) => [name]
    case Combined(lhs, _, rhs) => TermNames(lhs) + TermNames(rhs)
  }

  function TermNames(t: Term): seq<string>
  {
    match t
    case E(e) => Names(e)
    case Lit(_) => []
  }

  /** Building an expression only concatenates the operands' values and names. */
  lemma ApplyOperands(x: Term, op: Op, y: Term)
    requires x.E? || y.E?
    ensures Apply(x, op, y).Ok? ==> Literals(Apply(x, op, y).value) == TermLiterals(x) + TermLiterals(y)
    ensures Apply(x, op, y).Ok? ==> Names(Apply(x, op, y).value) == TermNames(x) + TermNames(y)
  {
  }
}
