/** The `Q` predicate tree: a connector, a negation flag and children that are
    `(lookup, value)` leaves or nested `Q` objects. The leaf value type is a
    parameter so that the query layer can put sub-queries in leaves.

    `Eval` is the meaning `Q.__repr__` displays: a negated node is NOT of its
    connector applied to its children. `SqlEval` is the meaning of the SQL the
    where-clause renderer emits for the same tree (see `Compiler`): it puts
    ` not ` in front of every child of a negated node, drops nodes without
    children and ignores the negation of the outermost node. */
module Predicates {
  import opened Wrappers

  datatype Connector = AND | OR

  /** The connector's text, used to join rendered children. */
  function ConnectorText(c: Connector): string
  {
    match c
    case AND => "AND"
    case OR => "OR"
  }

  datatype Child<V> = Leaf(key: string, value: V) | Group(q: Q<V>)

  datatype Q<V> = Q(connector: Connector, negated: bool, children: seq<Child<V>>)

  /** The right operand of `&` / `|`: a `Q` or anything else. */
  datatype Arg<V> = QObj(q: Q<V>) | NotQ

  /** `Q(*args, **kwargs)`: the positional children (nested `Q` objects or
      `(lookup, value)` tuples), then the keyword arguments as leaves, under
      an un-negated AND. */
  function New<V>(args: seq<Child<V>>, kwargs: seq<(string, V)>): (q: Q<V>)
    ensures q.connector == AND && !q.negated
    ensures |q.children| == |args| + |kwargs|
    ensures q.children[..|args|] == args
    ensures forall i | 0 <= i < |kwargs| :: q.children[|args| + i] == Leaf(kwargs[i].0, kwargs[i].1)
  {
    Q(AND, false, args + seq(|kwargs|, i requires 0 <= i < |kwargs| => Leaf(kwargs[i].0, kwargs[i].1)))
  }

  /** `len(q)`. */
  function Len<V>(q: Q<V>): nat
  {
    |q.children|
  }

  /** `bool(q)`. */
  predicate Nonempty<V>(q: Q<V>)
  {
    |q.children| > 0
  }

  // ---------------------------------------------------------------------------
  // Meaning

  function Apply(c: Connector, a: bool, b: bool): bool
  {
    if c == AND then a && b else a || b
  }

  function Neg(negated: bool, b: bool): bool
  {
    if negated then !b else b
  }

  /** The children combined by the connector (AND of none is true, OR of none false). */
  predicate Holds<V>(c: Connector, cs: seq<Child<V>>, holds: (string, V) -> bool)
    decreases cs, 1
  {
    if c == AND then forall i | 0 <= i < |cs| :: ChildHolds(cs[i], holds)
    else exists i | 0 <= i < |cs| :: ChildHolds(cs[i], holds)
  }

  predicate ChildHolds<V>(c: Child<V>, holds: (string, V) -> bool)
    decreases c, 0
  {
    match c
    case Leaf(k, v) => holds(k, v)
    case Group(q) => Eval(q, holds)
  }

  /** What a tree means, given what each leaf means. */
  predicate Eval<V>(q: Q<V>, holds: (string, V) -> bool)
    decreases q, 2
  {
    Neg(q.negated, Holds(q.connector, q.children, holds))
  }

  /** Combining two runs of children under the same connector. */
  lemma HoldsAppend<V>(c: Connector, a: seq<Child<V>>, b: seq<Child<V>>, holds: (string, V) -> bool)
    ensures Holds(c, a + b, holds) == Apply(c, Holds(c, a, holds), Holds(c, b, holds))
  {
    var ab := a + b;
    assert forall i | 0 <= i < |a| :: ab[i] == a[i];
    assert forall i | 0 <= i < |b| :: ab[|a| + i] == b[i];
    if c == AND {
      if Holds(c, a, holds) && Holds(c, b, holds) {
        forall i | 0 <= i < |ab| ensures ChildHolds(ab[i], holds) {
          if i >= |a| { assert ab[i] == b[i - |a|]; }
        }
      }
    } else {
      if Holds(c, ab, holds) {
        var i :| 0 <= i < |ab| && ChildHolds(ab[i], holds);
        if i >= |a| {
          assert ab[|a| + (i - |a|)] == b[i - |a|];
        } else {
          assert ab[i] == a[i];
        }
      }
    }
  }

  /** A single child means the same under either connector. */
  lemma HoldsSingle<V>(c: Connector, x: Child<V>, holds: (string, V) -> bool)
    ensures Holds(c, [x], holds) == ChildHolds(x, holds)
  {
    assert [x][0] == x;
  }

  // ---------------------------------------------------------------------------
  // Q.add, &, |, ~

  /** What `add` puts beside the receiver's children when the connectors
      match: `data`'s own children when it is un-negated and has the
      connector or a single child, else `data` itself as one child. */
  function Spliced<V>(data: Q<V>, conn: Connector): (r: seq<Child<V>>)
    ensures !data.negated && (data.connector == conn || Len(data) == 1) ==> r == data.children
    ensures data.negated || (data.connector != conn && Len(data) != 1) ==> r == [Group(data)]
  {
    if !data.negated && (data.connector == conn || Len(data) == 1) then data.children else [Group(data)]
  }

  /** `q.add(data, conn)`, returning the receiver's new value. When `q`'s
      connector differs from `conn`, the previous children move into a new
      node that takes `conn`, while `q` keeps its own connector and negation. */
  function Add<V>(q: Q<V>, data: Q<V>, conn: Connector): (r: Q<V>)
    ensures r.negated == q.negated && r.connector == q.connector
    ensures q.connector == conn ==> r.children == q.children + Spliced(data, conn)
    ensures q.connector != conn ==> r.children == [Group(Q(conn, false, q.children)), Group(data)]
  {
    if q.connector == conn then
      if !data.negated && (data.connector == conn || Len(data) == 1) then
        q.(children := q.children + data.children)
      else q.(children := q.children + [Group(data)])
    else q.(children := [Group(Q(conn, false, q.children)), Group(data)])
  }

  /** What is spliced in means what `data` means. */
  lemma SplicedEval<V>(data: Q<V>, conn: Connector, holds: (string, V) -> bool)
    ensures Holds(conn, Spliced(data, conn), holds) == Eval(data, holds)
  {
    if !data.negated && (data.connector == conn || Len(data) == 1) {
      if data.connector != conn {
        assert data.children == [data.children[0]];
        HoldsSingle(conn, data.children[0], holds);
        HoldsSingle(data.connector, data.children[0], holds);
      }
    } else {
      HoldsSingle(conn, Group(data), holds);
    }
  }

  /** With matching connectors, `add` puts `data` beside the previous
      children, under `q`'s negation. */
  lemma AddEval<V>(q: Q<V>, data: Q<V>, conn: Connector, holds: (string, V) -> bool)
    requires q.connector == conn
    ensures Eval(Add(q, data, conn), holds) ==
      Neg(q.negated, Apply(conn, Holds(conn, q.children, holds), Eval(data, holds)))
  {
    HoldsAppend(conn, q.children, Spliced(data, conn), holds);
    SplicedEval(data, conn, holds);
  }

  /** With different connectors, the previous children are combined by
      `conn` and the result by `q`'s own connector, so `Q(a=1).add(Q(b=2),
      'OR')` means `a AND b`. No operation of the ORM reaches this case:
      every receiver of `add` already has the connector it is given. */
  lemma AddOtherConnector<V>(q: Q<V>, data: Q<V>, conn: Connector, holds: (string, V) -> bool)
    requires q.connector != conn
    ensures Eval(Add(q, data, conn), holds) ==
      Neg(q.negated, Apply(q.connector, Holds(conn, q.children, holds), Eval(data, holds)))
  {
    var inner := Q(conn, false, q.children);
    var r := Add(q, data, conn);
    assert r.children == [Group(inner)] + [Group(data)];
    HoldsAppend(q.connector, [Group(inner)], [Group(data)], holds);
    HoldsSingle(q.connector, Group(inner), holds);
    HoldsSingle(q.connector, Group(data), holds);
  }

  /** `self._combine(other, conn)`: a TypeError unless `other` is a `Q`;
      otherwise a new un-negated node with the connector, holding what
      `add` splices in of each operand, in order. */
  function Combine<V>(a: Q<V>, other: Arg<V>, conn: Connector): (r: Result<Q<V>>)
    ensures r.Err? <==> other.NotQ?
    ensures r.Ok? ==> r.value.connector == conn && !r.value.negated
    ensures r.Ok? ==> r.value.children == Spliced(a, conn) + Spliced(other.q, conn)
  {
    if other.NotQ? then Err(TypeError("Q"))
    else Ok(Add(Add(Q(conn, false, []), a, conn), other.q, conn))
  }

  /** `a & b` and `a | b` mean the conjunction and disjunction, whatever the
      operands' connectors and negations. */
  lemma CombineEval<V>(a: Q<V>, b: Q<V>, conn: Connector, holds: (string, V) -> bool)
    ensures Combine(a, QObj(b), conn).Ok?
    ensures Eval(Combine(a, QObj(b), conn).value, holds) == Apply(conn, Eval(a, holds), Eval(b, holds))
  {
    var r := Combine(a, QObj(b), conn).value;
    HoldsAppend(conn, Spliced(a, conn), Spliced(b, conn), holds);
    SplicedEval(a, conn, holds);
    SplicedEval(b, conn, holds);
  }

  function And<V>(a: Q<V>, other: Arg<V>): Result<Q<V>>
  {
    Combine(a, other, AND)
  }

  function Or<V>(a: Q<V>, other: Arg<V>): Result<Q<V>>
  {
    Combine(a, other, OR)
  }

  /** `~q`: a new AND node holding what `add` splices in of `q`, with the
      opposite of `q`'s flag. Inverting a negated `q` therefore wraps it in
      an un-negated node rather than cancelling the negation. */
  function Invert<V>(q: Q<V>): (r: Q<V>)
    ensures r.connector == AND && r.negated == !q.negated
    ensures q.negated ==> r.children == [Group(q)]
  {
    Add(Q(AND, false, []), q, AND).(negated := !q.negated)
  }

  /** `~q` of an un-negated `q` means its negation; of a negated `q`, the
      same as `q`. */
  lemma InvertEval<V>(q: Q<V>, holds: (string, V) -> bool)
    ensures !q.negated ==> Eval(Invert(q), holds) == !Eval(q, holds)
    ensures q.negated ==> Eval(Invert(q), holds) == Eval(q, holds)
  {
    HoldsAppend(AND, [], Spliced(q, AND), holds);
    SplicedEval(q, AND, holds);
  }

  /** `~~p` means `~p` for an un-negated `p`: the second `~` does not cancel
      the first. */
  lemma DoubleInvert<V>(p: Q<V>, holds: (string, V) -> bool)
    requires !p.negated
    ensures Eval(Invert(Invert(p)), holds) == Eval(Invert(p), holds) == !Eval(p, holds)
  {
    InvertEval(p, holds);
    InvertEval(Invert(p), holds);
  }

  /** `~~Q(a=1)` holds exactly where `a` does not. */
  lemma DoubleInvertExample()
    ensures var p := Q(AND, false, [Leaf("a", 1)]);
            var holds := (k: string, v: int) => true;
            Eval(p, holds) && !Eval(Invert(Invert(p)), holds)
  {
    var p := Q(AND, false, [Leaf("a", 1)]);
    var holds := (k: string, v: int) => true;
    DoubleInvert(p, holds);
    assert ChildHolds(p.children[0], holds);
  }

  /** De Morgan for the operators on un-negated operands: `~(a & b)` means
      `~a | ~b`. */
  lemma InvertAnd<V>(a: Q<V>, b: Q<V>, holds: (string, V) -> bool)
    requires !a.negated && !b.negated
    ensures Eval(Invert(Combine(a, QObj(b), AND).value), holds) ==
            Eval(Combine(Invert(a), QObj(Invert(b)), OR).value, holds)
  {
    CombineEval(a, b, AND, holds);
    InvertEval(Combine(a, QObj(b), AND).value, holds);
    CombineEval(Invert(a), Invert(b), OR, holds);
    InvertEval(a, holds);
    InvertEval(b, holds);
  }

  // ---------------------------------------------------------------------------
  // The meaning of the rendered SQL

  /** Whether a child yields SQL text: leaves always, nodes when some
      child of theirs does. */
  predicate Rendered<V>(c: Child<V>)
    decreases c, 0
  {
    match c
    case Leaf(_, _) => true
    case Group(q) => exists i | 0 <= i < |q.children| :: Rendered(q.children[i])
  }

  /** The rendered SQL read as SQL reads it: a run of units joined by one
      connector, each unit some leading ` not `s before a leaf's condition
      or before a parenthesised run. Every run the renderer emits has a
      single connector, because a nested node with another connector is
      parenthesised. */
  datatype Unit<V> = Unit(nots: nat, prim: Prim<V>)
  datatype Prim<V> = Atom(key: string, value: V) | Paren(connector: Connector, body: seq<Unit<V>>)

  predicate UnitsHold<V>(c: Connector, us: seq<Unit<V>>, holds: (string, V) -> bool)
    decreases us, 1
  {
    if c == AND then forall i | 0 <= i < |us| :: UnitHolds(us[i], holds)
    else exists i | 0 <= i < |us| :: UnitHolds(us[i], holds)
  }

  /** ` not ` binds to the atom or parenthesis right after it. */
  predicate UnitHolds<V>(u: Unit<V>, holds: (string, V) -> bool)
    decreases u, 0
  {
    Neg(u.nots % 2 == 1,
        match u.prim
        case Atom(k, v) => holds(k, v)
        case Paren(c, body) => UnitsHold(c, body, holds))
  }

  /** `' not ' + x`: the ` not ` lands before the first unit of the piece. */
  function NotFirst<V>(piece: seq<Unit<V>>): (r: seq<Unit<V>>)
    ensures |r| == |piece|
    ensures |piece| > 0 ==> r[0].nots == piece[0].nots + 1 && r[0].prim == piece[0].prim && r[1..] == piece[1..]
  {
    if |piece| == 0 then piece else [Unit(piece[0].nots + 1, piece[0].prim)] + piece[1..]
  }

  /** `[' not ' + x for x in pieces]`. */
  function NotEach<V>(pieces: seq<seq<Unit<V>>>): seq<seq<Unit<V>>>
  {
    seq(|pieces|, i requires 0 <= i < |pieces| => NotFirst(pieces[i]))
  }

  /** The pieces `_sql_expr` returns for the children of a node with
      connector `parent`, one per child that yields any. */
  function Pieces<V>(parent: Connector, cs: seq<Child<V>>): seq<seq<Unit<V>>>
    decreases cs, 1
  {
    if |cs| == 0 then []
    else Pieces(parent, cs[..|cs| - 1]) + PieceOf(parent, cs[|cs| - 1])
  }

  /** A leaf's condition; a nested node's pieces, each with ` not ` in front
      when it is negated, joined by its connector and parenthesised when
      that differs from `parent`; nothing for a node without pieces. */
  function PieceOf<V>(parent: Connector, c: Child<V>): seq<seq<Unit<V>>>
    decreases c, 0
  {
    match c
    case Leaf(k, v) => [[Unit(0, Atom(k, v))]]
    case Group(g) =>
      var inner := Pieces(g.connector, g.children);
      if |inner| == 0 then []
      else
        var body := Flatten(if g.negated then NotEach(inner) else inner);
        if g.connector != parent then [[Unit(0, Paren(g.connector, body))]] else [body]
  }

  /** What the SQL of `sql_expr(q)` means: the pieces joined by the node's
      connector; the node's own negation is not rendered. */
  predicate SqlEval<V>(q: Q<V>, holds: (string, V) -> bool)
  {
    UnitsHold(q.connector, Flatten(Pieces(q.connector, q.children)), holds)
  }

  /** Trees the renderer gets right: every nested node has children, and a
      negated nested node has one child, a leaf or a node with the other
      connector, so that its ` not ` falls on a single unit. */
  predicate Plain<V>(cs: seq<Child<V>>)
    decreases cs
  {
    forall i | 0 <= i < |cs| :: PlainChild(cs[i])
  }

  predicate PlainChild<V>(c: Child<V>)
    decreases c
  {
    match c
    case Leaf(_, _) => true
    case Group(q) =>
      |q.children| > 0 && Plain(q.children) &&
      (q.negated ==> |q.children| == 1 && (q.children[0].Leaf? || q.children[0].q.connector != q.connector))
  }

  lemma UnitsHoldAppend<V>(c: Connector, a: seq<Unit<V>>, b: seq<Unit<V>>, holds: (string, V) -> bool)
    ensures UnitsHold(c, a + b, holds) == Apply(c, UnitsHold(c, a, holds), UnitsHold(c, b, holds))
  {
    var ab := a + b;
    assert forall i | 0 <= i < |a| :: ab[i] == a[i];
    assert forall i | 0 <= i < |b| :: ab[|a| + i] == b[i];
    if c == AND {
      if UnitsHold(c, a, holds) && UnitsHold(c, b, holds) {
        forall i | 0 <= i < |ab| ensures UnitHolds(ab[i], holds) {
          if i >= |a| { assert ab[i] == b[i - |a|]; }
        }
      }
    } else {
      if UnitsHold(c, ab, holds) {
        var i :| 0 <= i < |ab| && UnitHolds(ab[i], holds);
        if i >= |a| {
          assert ab[|a| + (i - |a|)] == b[i - |a|];
        } else {
          assert ab[i] == a[i];
        }
      }
    }
  }

  lemma UnitsHoldSingle<V>(c: Connector, u: Unit<V>, holds: (string, V) -> bool)
    ensures UnitsHold(c, [u], holds) == UnitHolds(u, holds)
  {
    assert [u][0] == u;
  }

  /** A one-unit piece, flattened, is that unit. */
  lemma FlattenOne<V>(p: seq<Unit<V>>)
    ensures Flatten([p]) == p
  {
    assert [p][1..] == [];
  }

  lemma FlattenTwo<V>(p: seq<Unit<V>>, p': seq<Unit<V>>)
    ensures Flatten([p, p']) == p + p'
  {
    assert [p, p'][1..] == [p'];
    FlattenOne(p');
  }

  lemma NotEachOne<V>(u: Unit<V>)
    ensures NotEach([[u]]) == [[Unit(u.nots + 1, u.prim)]]
  {
    assert NotFirst([u]) == [Unit(u.nots + 1, u.prim)];
  }

  lemma NotEachTwo<V>(p: seq<Unit<V>>, p': seq<Unit<V>>)
    ensures NotEach([p, p']) == [NotFirst(p), NotFirst(p')]
  {
  }

  lemma PiecesOne<V>(parent: Connector, x: Child<V>)
    ensures Pieces(parent, [x]) == PieceOf(parent, x)
  {
    assert [x][..0] == [];
  }

  /** On plain trees the rendered SQL means what the tree means, apart from
      the outermost negation, which is dropped. */
  lemma SqlEvalPlain<V>(q: Q<V>, holds: (string, V) -> bool)
    requires Plain(q.children)
    ensures SqlEval(q, holds) == Holds(q.connector, q.children, holds)
  {
    PiecesPlain(q.connector, q.children, holds);
  }

  /** One piece per plain child, and together they mean the children
      combined by `parent`. */
  lemma {:induction false} PiecesPlain<V>(parent: Connector, cs: seq<Child<V>>, holds: (string, V) -> bool)
    requires Plain(cs)
    ensures |Pieces(parent, cs)| == |cs|
    ensures UnitsHold(parent, Flatten(Pieces(parent, cs)), holds) == Holds(parent, cs, holds)
    decreases cs, 1
  {
    if |cs| > 0 {
      var init, last := cs[..|cs| - 1], cs[|cs| - 1];
      assert cs == init + [last];
      assert forall i | 0 <= i < |init| :: init[i] == cs[i];
      PiecesPlain(parent, init, holds);
      ChildPlain(parent, last, holds);
      FlattenAppend(Pieces(parent, init), PieceOf(parent, last));
      UnitsHoldAppend(parent, Flatten(Pieces(parent, init)), Flatten(PieceOf(parent, last)), holds);
      HoldsAppend(parent, init, [last], holds);
      HoldsSingle(parent, last, holds);
    }
  }

  /** A plain child renders as one piece that means what the child means;
      a leaf, or a node with a connector other than `parent`, as a single
      unit. */
  lemma {:induction false} ChildPlain<V>(parent: Connector, c: Child<V>, holds: (string, V) -> bool)
    requires PlainChild(c)
    ensures |PieceOf(parent, c)| == 1
    ensures c.Leaf? || c.q.connector != parent ==> |PieceOf(parent, c)[0]| == 1
    ensures UnitsHold(parent, Flatten(PieceOf(parent, c)), holds) == ChildHolds(c, holds)
    decreases c, 0
  {
    match c
    case Leaf(k, v) =>
      FlattenOne([Unit(0, Atom(k, v))]);
      UnitsHoldSingle(parent, Unit(0, Atom(k, v)), holds);
    case Group(g) =>
      var inner := Pieces(g.connector, g.children);
      var body;
      if g.negated {
        var x := g.children[0];
        assert g.children == [x];
        PiecesOne(g.connector, x);
        ChildPlain(g.connector, x, holds);
        var u := inner[0][0];
        assert inner == [[u]];
        FlattenOne([u]);
        UnitsHoldSingle(g.connector, u, holds);
        HoldsSingle(g.connector, x, holds);
        NotEachOne(u);
        body := [Unit(u.nots + 1, u.prim)];
        FlattenOne(body);
        UnitsHoldSingle(g.connector, body[0], holds);
        assert UnitsHold(g.connector, body, holds) == Eval(g, holds);
      } else {
        PiecesPlain(g.connector, g.children, holds);
        body := Flatten(inner);
      }
      assert UnitsHold(g.connector, body, holds) == Eval(g, holds);
      if g.connector != parent {
        FlattenOne([Unit(0, Paren(g.connector, body))]);
        UnitsHoldSingle(parent, Unit(0, Paren(g.connector, body)), holds);
      } else {
        FlattenOne(body);
      }
  }

  /** `exclude(a=1, b=2)` renders `not a AND not b`, which does not mean
      NOT (a AND b). */
  lemma ExcludeTwoRendersPerChild()
    ensures var ex := Q(AND, true, [Leaf("a", 1), Leaf("b", 2)]);
            var where := Q(AND, false, [Group(ex)]);
            var holds := (k: string, v: int) => k == "a";
            Eval(where, holds) && !SqlEval(where, holds)
  {
    var ex := Q(AND, true, [Leaf("a", 1), Leaf("b", 2)]);
    var where := Q(AND, false, [Group(ex)]);
    var holds := (k: string, v: int) => k == "a";
    var a, b := Unit(0, Atom("a", 1)), Unit(0, Atom("b", 2));
    assert !ChildHolds(ex.children[1], holds);
    var nots := [Unit(1, a.prim), Unit(1, b.prim)];
    NotTwoLeaves(AND, "a", 1, "b", 2);
    PiecesOne(AND, Group(ex));
    FlattenOne(nots);
    assert Flatten(Pieces(AND, where.children)) == nots;
    assert !UnitHolds(nots[0], holds);
  }

  /** A negated AND node of two leaves renders ` not a AND not b`. */
  lemma NotTwoLeaves<V>(c: Connector, a: string, x: V, b: string, y: V)
    ensures var leaves := [Leaf(a, x), Leaf(b, y)];
      Pieces(c, leaves) == [[Unit(0, Atom(a, x))], [Unit(0, Atom(b, y))]] &&
      Flatten(NotEach(Pieces(c, leaves))) == [Unit(1, Atom(a, x)), Unit(1, Atom(b, y))]
  {
    var leaves := [Leaf(a, x), Leaf(b, y)];
    assert leaves[..1] == [Leaf(a, x)];
    PiecesOne(c, Leaf(a, x));
    var ua, ub := Unit(0, Atom(a, x)), Unit(0, Atom(b, y));
    NotEachTwo([ua], [ub]);
    NotEachOne(ua);
    NotEachOne(ub);
    FlattenTwo([Unit(1, ua.prim)], [Unit(1, ub.prim)]);
  }

  /** `exclude(~Q(a=1, b=2))` as `filter`/`exclude` build it: `~` gives a
      negated AND node of the two leaves, the exclude wraps it in another
      negated AND node, and `_make_q` and `_add_q` keep both. */
  lemma ExcludeInvertedTree()
    ensures var inv := Invert(New([], [("a", 1), ("b", 2)]));
            AddQ(Q(AND, false, []), MakeQ(New([Group(inv)], []).(negated := true))) ==
            Q(AND, false, [Group(Q(AND, true, [Group(Q(AND, true, [Leaf("a", 1), Leaf("b", 2)]))]))])
  {
    var leaves := [Leaf("a", 1), Leaf("b", 2)];
    var inv := Invert(New([], [("a", 1), ("b", 2)]));
    assert New([], [("a", 1), ("b", 2)]).children == leaves;
    assert inv == Q(AND, true, leaves);
    var ex := New([Group(inv)], []).(negated := true);
    assert ex.children == [Group(inv)];
    MakeChildrenLeaves(AND, leaves);
    assert MakeChildren(AND, [Group(inv)]) == MakeStep(AND, [], Group(inv));
    assert MakeQ(inv) == inv;
    var made := MakeQ(ex);
    assert made == Q(AND, true, [Group(inv)]);
  }

  /** The tree of `exclude(~Q(a=1, b=2))` means a AND b; its SQL is
      ` not  not a AND not b`, which means a AND NOT b. */
  lemma ExcludeInvertedMisread()
    ensures var inv := Invert(New([], [("a", 1), ("b", 2)]));
            var where := AddQ(Q(AND, false, []), MakeQ(New([Group(inv)], []).(negated := true)));
            var holds := (k: string, v: int) => true;
            Eval(where, holds) && !SqlEval(where, holds)
  {
    ExcludeInvertedTree();
    var inv := Q(AND, true, [Leaf("a", 1), Leaf("b", 2)]);
    var made := Q(AND, true, [Group(inv)]);
    var where := Q(AND, false, [Group(made)]);
    var holds := (k: string, v: int) => true;
    NotTwoLeaves(AND, "a", 1, "b", 2);
    var once := [Unit(1, Atom("a", 1)), Unit(1, Atom("b", 2))];
    PiecesOne(AND, Group(inv));
    FlattenOne(once);
    assert Pieces(AND, made.children) == [once];
    var twice := [Unit(2, Atom("a", 1)), Unit(1, Atom("b", 2))];
    assert NotFirst(once) == twice;
    assert NotEach([once]) == [twice];
    FlattenOne(twice);
    PiecesOne(AND, Group(made));
    assert Flatten(Pieces(AND, where.children)) == twice;
    assert !UnitHolds(twice[1], holds);
    assert Eval(inv, holds) == false;
  }

  // ---------------------------------------------------------------------------
  // The rendering the code evidently intends: NOT ( ... ) around a negated node

  /** Every nested node has children. */
  predicate Filled<V>(cs: seq<Child<V>>)
    decreases cs
  {
    forall i | 0 <= i < |cs| :: FilledChild(cs[i])
  }

  predicate FilledChild<V>(c: Child<V>)
    decreases c
  {
    match c
    case Leaf(_, _) => true
    case Group(q) => |q.children| > 0 && Filled(q.children)
  }

  function FixedPieces<V>(parent: Connector, cs: seq<Child<V>>): seq<seq<Unit<V>>>
    decreases cs, 1
  {
    if |cs| == 0 then []
    else FixedPieces(parent, cs[..|cs| - 1]) + FixedPieceOf(parent, cs[|cs| - 1])
  }

  /** As `PieceOf`, except that a negated node becomes ` not ( ... ) `,
      the form `Q.__repr__` shows: one unit, whatever its children. */
  function FixedPieceOf<V>(parent: Connector, c: Child<V>): seq<seq<Unit<V>>>
    decreases c, 0
  {
    match c
    case Leaf(k, v) => [[Unit(0, Atom(k, v))]]
    case Group(g) =>
      var inner := FixedPieces(g.connector, g.children);
      if |inner| == 0 then []
      else if g.negated then [[Unit(1, Paren(g.connector, Flatten(inner)))]]
      else if g.connector != parent then [[Unit(0, Paren(g.connector, Flatten(inner)))]]
      else [Flatten(inner)]
  }

  predicate FixedSqlEval<V>(q: Q<V>, holds: (string, V) -> bool)
  {
    UnitsHold(q.connector, Flatten(FixedPieces(q.connector, q.children)), holds)
  }

  /** With negated nodes parenthesised, the SQL means what the tree means
      whenever no nested node is empty, negated or not, whatever its
      connector: `exclude` of several conditions and of an inverted `Q`
      included. */
  lemma FixedSqlEvalMeans<V>(q: Q<V>, holds: (string, V) -> bool)
    requires Filled(q.children)
    ensures FixedSqlEval(q, holds) == Holds(q.connector, q.children, holds)
  {
    FixedPiecesMean(q.connector, q.children, holds);
  }

  lemma {:induction false} FixedPiecesMean<V>(parent: Connector, cs: seq<Child<V>>, holds: (string, V) -> bool)
    requires Filled(cs)
    ensures |FixedPieces(parent, cs)| == |cs|
    ensures UnitsHold(parent, Flatten(FixedPieces(parent, cs)), holds) == Holds(parent, cs, holds)
    decreases cs, 1
  {
    if |cs| > 0 {
      var init, last := cs[..|cs| - 1], cs[|cs| - 1];
      assert cs == init + [last];
      assert forall i | 0 <= i < |init| :: init[i] == cs[i];
      FixedPiecesMean(parent, init, holds);
      FixedChildMeans(parent, last, holds);
      FlattenAppend(FixedPieces(parent, init), FixedPieceOf(parent, last));
      UnitsHoldAppend(parent, Flatten(FixedPieces(parent, init)), Flatten(FixedPieceOf(parent, last)), holds);
      HoldsAppend(parent, init, [last], holds);
      HoldsSingle(parent, last, holds);
    }
  }

  lemma {:induction false} FixedChildMeans<V>(parent: Connector, c: Child<V>, holds: (string, V) -> bool)
    requires FilledChild(c)
    ensures |FixedPieceOf(parent, c)| == 1
    ensures UnitsHold(parent, Flatten(FixedPieceOf(parent, c)), holds) == ChildHolds(c, holds)
    decreases c, 0
  {
    match c
    case Leaf(k, v) =>
      FlattenOne([Unit(0, Atom(k, v))]);
      UnitsHoldSingle(parent, Unit(0, Atom(k, v)), holds);
    case Group(g) =>
      var body := Flatten(FixedPieces(g.connector, g.children));
      FixedPiecesMean(g.connector, g.children, holds);
      if g.negated || g.connector != parent {
        var u := Unit(if g.negated then 1 else 0, Paren(g.connector, body));
        FlattenOne([u]);
        UnitsHoldSingle(parent, u, holds);
      } else {
        FlattenOne(body);
      }
  }

  /** The corrected rendering reads `exclude(~Q(a=1, b=2))` as a AND b. */
  lemma ExcludeInvertedFixed()
    ensures var where := Q(AND, false, [Group(Q(AND, true, [Group(Q(AND, true, [Leaf("a", 1), Leaf("b", 2)]))]))]);
            forall holds: (string, int) -> bool :: FixedSqlEval(where, holds) == (holds("a", 1) && holds("b", 2))
  {
    var leaves := [Leaf("a", 1), Leaf("b", 2)];
    var inner := Q(AND, true, leaves);
    var where := Q(AND, false, [Group(Q(AND, true, [Group(inner)]))]);
    forall holds: (string, int) -> bool ensures FixedSqlEval(where, holds) == (holds("a", 1) && holds("b", 2)) {
      FixedSqlEvalMeans(where, holds);
      HoldsSingle(AND, Group(inner), holds);
      assert Holds(AND, leaves, holds) == (holds("a", 1) && holds("b", 2));
    }
  }

  // ---------------------------------------------------------------------------
  // QuerySet._make_q and WhereNode._add_q

  /** `_make_q`: a copy of the tree rebuilt with `add`, which flattens nested
      nodes that `add` absorbs. Children are processed left to right. */
  function MakeQ<V>(q: Q<V>): (r: Q<V>)
    ensures r.connector == q.connector && r.negated == q.negated
    decreases q, 1
  {
    Q(q.connector, q.negated, MakeChildren(q.connector, q.children))
  }

  /** The children `_make_q` gathers for a node with connector `c`. */
  function MakeChildren<V>(c: Connector, cs: seq<Child<V>>): seq<Child<V>>
    decreases cs, 0
  {
    if |cs| == 0 then []
    else
      var acc := MakeChildren(c, cs[..|cs| - 1]);
      MakeStep(c, acc, cs[|cs| - 1])
  }

  /** One iteration: `new_q.add(_make_q(child), c)` for a node,
      `new_q.add(Q(child), c)` for a leaf. */
  function MakeStep<V>(c: Connector, acc: seq<Child<V>>, child: Child<V>): seq<Child<V>>
    decreases child, 2
  {
    match child
    case Leaf(k, v) => Add(Q(c, false, acc), Q(AND, false, [child]), c).children
    case Group(g) => Add(Q(c, false, acc), MakeQ(g), c).children
  }

  /** Leaves only. */
  predicate AllLeaves<V>(cs: seq<Child<V>>)
  {
    forall i | 0 <= i < |cs| :: cs[i].Leaf?
  }

  /** `_make_q` leaves a node of leaves as it is: each leaf is wrapped in a
      one-child `Q` that `add` splices straight back. */
  lemma {:induction false} MakeChildrenLeaves<V>(c: Connector, cs: seq<Child<V>>)
    requires AllLeaves(cs)
    ensures MakeChildren(c, cs) == cs
    decreases |cs|
  {
    if |cs| > 0 {
      var init, last := LeavesSplit(cs);
      MakeChildrenLast(c, cs);
      MakeChildrenLeaves(c, init);
      MakeStepLeaf(c, init, last);
    }
  }

  /** A non-empty run of leaves is a shorter run of leaves and a last leaf. */
  lemma LeavesSplit<V>(cs: seq<Child<V>>) returns (init: seq<Child<V>>, last: Child<V>)
    requires |cs| > 0 && AllLeaves(cs)
    ensures init == cs[..|cs| - 1] && last == cs[|cs| - 1]
    ensures cs == init + [last] && AllLeaves(init) && last.Leaf?
  {
    init, last := cs[..|cs| - 1], cs[|cs| - 1];
    assert forall i | 0 <= i < |init| :: init[i] == cs[i];
  }

  lemma MakeChildrenLast<V>(c: Connector, cs: seq<Child<V>>)
    requires |cs| > 0
    ensures MakeChildren(c, cs) == MakeStep(c, MakeChildren(c, cs[..|cs| - 1]), cs[|cs| - 1])
  {
  }

  /** `new_q.add(Q(leaf), c)` appends the leaf itself. */
  lemma MakeStepLeaf<V>(c: Connector, acc: seq<Child<V>>, leaf: Child<V>)
    requires leaf.Leaf?
    ensures MakeStep(c, acc, leaf) == acc + [leaf]
  {
    assert Spliced(Q(AND, false, [leaf]), c) == [leaf];
  }

  /** `_make_q` keeps the meaning of every tree. */
  lemma {:induction false} MakeQEval<V>(q: Q<V>, holds: (string, V) -> bool)
    ensures Eval(MakeQ(q), holds) == Eval(q, holds)
    decreases q, 1
  {
    MakeChildrenEval(q.connector, q.children, holds);
  }

  lemma {:induction false} MakeChildrenEval<V>(c: Connector, cs: seq<Child<V>>, holds: (string, V) -> bool)
    ensures Holds(c, MakeChildren(c, cs), holds) == Holds(c, cs, holds)
    decreases cs, 0
  {
    if |cs| > 0 {
      var init := cs[..|cs| - 1];
      var last := cs[|cs| - 1];
      var acc := MakeChildren(c, init);
      MakeChildrenEval(c, init, holds);
      assert cs == init + [last];
      HoldsAppend(c, init, [last], holds);
      HoldsSingle(c, last, holds);
      MakeStepEval(c, acc, last, holds);
    }
  }

  lemma {:induction false} MakeStepEval<V>(c: Connector, acc: seq<Child<V>>, child: Child<V>, holds: (string, V) -> bool)
    ensures Holds(c, MakeStep(c, acc, child), holds) == Apply(c, Holds(c, acc, holds), ChildHolds(child, holds))
    decreases child, 2
  {
    match child
    case Leaf(k, v) =>
      AddEval(Q(c, false, acc), Q(AND, false, [child]), c, holds);
      HoldsSingle(AND, child, holds);
    case Group(g) =>
      AddEval(Q(c, false, acc), MakeQ(g), c, holds);
      MakeQEval(g, holds);
  }

  /** `WhereNode._add_q`: the filter gains the new tree as a conjunct. */
  function AddQ<V>(filter: Q<V>, q: Q<V>): (r: Q<V>)
  {
    Add(filter, q, AND)
  }

  /** The where-clause filter is always an un-negated AND node, so adding
      a tree conjoins it. */
  lemma AddQEval<V>(filter: Q<V>, q: Q<V>, holds: (string, V) -> bool)
    requires filter.connector == AND && !filter.negated
    ensures AddQ(filter, q).connector == AND && !AddQ(filter, q).negated
    ensures Eval(AddQ(filter, q), holds) == (Eval(filter, holds) && Eval(q, holds))
  {
    AddEval(filter, q, AND, holds);
  }
}
