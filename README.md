# Query construction core of a small MySQL ORM, in Dafny

This project models the query layer of `data_handler.py`, a small Django-style
ORM. Chained query-builder calls (`filter`, `exclude`, `order_by`, `values`,
`values_list`, `group_by`, `annotate`, `distinct`, `join`, slicing and
indexing) become one MySQL statement plus an ordered parameter tuple. The
model covers:

- **Schema** (`schema.dfy`). `MetaModel` binds fields in MRO order and allows
  one primary key at most, aliased as `pk`. Also `Model.field_info` /
  `table_info` and model instances (`__init__`, `__eq__`).
- **Expression algebra** (`expressions.dfy`). `F`, `CombinedExpression` and
  the connectors the `Combinable` operators use.
- **Predicate tree** (`predicates.dfy`). `Q` with `add`, `&`, `|`, `~` and
  `_make_q`. `Eval` is a meaning for a tree under any truth assignment of its
  leaves; `SqlEval` is the meaning of the SQL the renderer emits, read as
  SQL reads it (` not ` binds to the condition or parenthesis after it).
- **Field resolution** (`resolve.dfy`). `ModelCheck.field_info` and
  `field_wash` against the model and the join aliases.
- **Aggregates** (`aggregates.dfy`). `Avg`, `Count` (also with `distinct`),
  `Max`, `Min`, `Sum`.
- **Where and statement compiler** (`compiler.dfy`, `compiler_facts.dfy`,
  `compiler_loops.dfy`). `f_expr`, `magic_query`, `_sql_expr` / `sql_expr` /
  `as_sql` and `Query.sql_expr` are functions. The loops of the same
  operations are methods proved to compute those functions.
- **Slicing arithmetic** (`slicing.dfy`). The `limit_dict` that
  `QuerySet.__getitem__` computes.
- **Row shaping** (`rows.dfy`). `data_to_obj`, the values dictionaries and the
  values-list rows.
- **Query operations** (`query_ops.dfy`). What each `QuerySet` call does to its
  cloned query, as functions on `Query` values.
- **QuerySet** (`queryset.dfy`). One class with a mode (`PlainSet`,
  `ValuesSet`, `ValuesListSet`) in place of the three Python classes. It holds
  the query, the cached `select_result` and the `select_field` fixed when it
  is built.

`Database.execute` is a `Database` object. Its answer to a statement is a
function of the statement and of every statement sent before, and it logs
every call. Caching can then be stated as "no new log entry".

Python exceptions are `Err` values of `Wrappers.Result`. The kind and the
message are kept (`TypeError`, `KeyError` for an unknown alias in
`field_wash`, `IndexError`, and so on). Python strings are `seq<char>`.
`Text.Split` and `Text.Contains` model `str.split('__')` and `'__' in s`.
An insertion-ordered `dict` is a sequence of pairs (`Dicts`).

Several behaviours are modelled exactly as the code has them, even where an
ORM user would expect otherwise:

- a negated nested node renders as ` not ` before each of its pieces, not
  `NOT ( … )`. `Predicates.ExcludeTwoRendersPerChild` shows that
  `exclude(a=1, b=2)` then means "neither", not "not both", and
  `Predicates.ExcludeInvertedMisread` (see Findings) that the ` not ` can
  land on the first condition of a piece only;
- an open slice `qs[a:]` of a limited set moves the offset and keeps the
  limit: it is not cut to the earlier window (`Slicing.SliceOpenIgnoresWindow`);
- `~` on a negated node wraps it in an un-negated node, so `~~p` means `~p`;
- a slice whose computed limit is 0 keeps the previous limit, and `stop <
  start` stores a negative limit;
- `annotate` adds its aggregates to the receiver's own query before cloning;
- an unknown lookup suffix compiles to an empty fragment with no parameters;
- `annotate` without `group_by` names its values by the aggregates only,
  while its statement selects every field first
  (`Rows.AnnotateShiftsValues`);
- `count()` wraps the select in a sub-query when the effective limit
  (including the largest-limit placeholder written for an offset alone) is a
  non-zero number, or when the query is distinct;
- when `add` is given a connector other than the receiver's, the receiver
  keeps its own connector (`Predicates.AddOtherConnector`). No operation
  of the ORM reaches that branch.

## Model

| member | source | states |
|---|---|---|
| `Schema.BuildSchemaFacts` | data_handler.py:824-856 | a schema is built exactly when at most one merged class-body entry is a primary key; its field list is the field entries in MRO-merged order, and it is well formed (every field an entry named by its key, `pk` naming the primary key's entry); unless a non-key field is itself named `pk`, `attrs['pk']` is the entry of the recorded primary key, a merged entry declared `primary_key` |
| `Schema.BindFromFacts` | data_handler.py:836-852 | the binding loop lists exactly the field entries in order and fails exactly when a second primary key appears |
| `Schema.BindFromWellFormed` | data_handler.py:842-851 | binding keeps `attrs` well named: each field under its own name, `pk` under the primary key's |
| `Schema.MergeMroUnique` | data_handler.py:839-841 | the merged class bodies hold each name once |
| `Schema.BindFromPrimaryKey` | data_handler.py:842-851 | the recorded primary key is a merged entry declared `primary_key`, and `attrs['pk']` is the same field as `attrs[primary_key]` |
| `Schema.ColumnRef` | data_handler.py:920-925 | `field_info` succeeds exactly for a field entry (or `pk`) and yields `` `table`.`column` ``, the column being `db_column` when it is set and non-empty, else the field's name; a missing or falsy attribute is the TypeError |
| `Schema.ColumnRefPrimaryKey` | data_handler.py:920-925 | when `pk` aliases the primary key, `field_info('pk')` is the primary key's own column |
| `Schema.TableRef` | data_handler.py:927-930 | the table is qualified by the configured database when one is set, else bare |
| `Schema.NewInstanceFacts` | data_handler.py:861-869 | `Model(**kw)` succeeds exactly when every keyword is a field or `pk` with a primary key; every field is set, to the last keyword's value that targets it or None |
| `Schema.SameInstance` | data_handler.py:891-892 | two instances are equal exactly when class and attribute dictionary are equal |
| `Values.Length` | data_handler.py:290 | `len(value)` is defined exactly for strings and tuples |
| `Values.Elements` | data_handler.py:295 | `tuple(value)` yields a tuple's items or a string's characters, as many as `len` counts |
| `Expressions.Apply` | data_handler.py:52-89 | an expression on the left uses its own method; a plain value on the left defers to the reflected method, except a string under `%`, which formats itself (TypeError when it has no `%`); an expression built keeps both operands in order |
| `Expressions.ReflectedDiffersOnlyForPower` | data_handler.py:70-89 | only `**` differs when reflected: `' ~ '` versus `' ^ '` |
| `Expressions.ApplyOperands` | data_handler.py:97-101 | building an expression concatenates the operands' literals and column names in order |
| `Aggregates.NewCount` | data_handler.py:21-27 | `Count(field, distinct)` keeps the field and picks the distinct template exactly when asked |
| `Aggregates.AggregateSql` | data_handler.py:13-14 | rendering fails exactly when resolving the field fails, with that error; otherwise it is the template's opening text (`avg(`, `count(distinct ` …), the column and `)` |
| `Aggregates.TemplateParts` | data_handler.py:7-39 | each class's `func` is its opening text, `%s` and its closing text |
| `Aggregates.FillAt` | data_handler.py:14 | `func % column` puts the column in place of the single `%s` |
| `Aggregates.ColumnOfAggregateSql` | data_handler.py:7-39 | every template keeps the column intact: it can be read back from the rendered text |
| `Predicates.New` | data_handler.py:105-108 | `Q(*args, **kwargs)` is an un-negated AND node holding the positional children (nodes or `(lookup, value)` tuples), then the keyword leaves, in order |
| `Predicates.Spliced` | data_handler.py:115-118 | `add` splices `data`'s children when it is un-negated and has the connector or one child, else appends `data` whole |
| `Predicates.Add` | data_handler.py:111-123 | `add` keeps the receiver's connector and negation; with a matching connector it appends what is spliced, otherwise it nests the old children under `conn` beside `data` |
| `Predicates.SplicedEval` | data_handler.py:115-118 | what `add` splices in means what `data` means |
| `Predicates.AddEval` | data_handler.py:114-118 | with a matching connector, `add` combines `data` with the previous children by that connector |
| `Predicates.AddOtherConnector` | data_handler.py:119-123 | with another connector, the receiver's own connector combines the nested old children and `data` |
| `Predicates.Combine` | data_handler.py:125-140 | `&` and `__or__` raise TypeError exactly for a non-`Q` operand; otherwise a fresh un-negated node with the connector holding both operands' spliced children in order |
| `Predicates.CombineEval` | data_handler.py:125-140 | `a & b` means `eval(a) ∧ eval(b)`, the `__or__` of `a` and `b` means `eval(a) ∨ eval(b)`, for all operands |
| `Predicates.Invert` | data_handler.py:143-147 | `~q` is an AND node with the opposite flag; a negated `q` becomes its only child |
| `Predicates.InvertEval` | data_handler.py:143-147 | `~q` means `¬eval(q)` for un-negated `q` and `eval(q)` for negated `q` |
| `Predicates.DoubleInvert` | data_handler.py:146 | `~~p` means `~p` for un-negated `p` |
| `Predicates.DoubleInvertExample` | data_handler.py:143-147 | `~~Q(a=1)` holds exactly where `a` does not |
| `Predicates.InvertAnd` | data_handler.py:134-147 | De Morgan on un-negated operands: `~(a & b)` means the `__or__` of `~a` and `~b` |
| `Predicates.SqlEvalPlain` | data_handler.py:178-201 | on trees whose nested nodes are non-empty and whose negated nested nodes have one child, a leaf or a node with the other connector, the rendered SQL means what the tree means, the outer negation dropped |
| `Predicates.PiecesPlain` | data_handler.py:178-196 | plain children yield one piece each, and the pieces joined by the connector mean the children combined by it |
| `Predicates.ChildPlain` | data_handler.py:182-194 | a plain child yields one piece meaning what the child means; a leaf or a node with another connector yields a single unit |
| `Predicates.NotTwoLeaves` | data_handler.py:182-190 | a negated node of two leaves renders ` not a`, ` not b` |
| `Predicates.ExcludeTwoRendersPerChild` | data_handler.py:189-190 | a negated group of two leaves renders as `not a AND not b`, which differs from NOT (a AND b) |
| `Predicates.ExcludeInvertedTree` | data_handler.py:599-618 | `exclude(~Q(a=1, b=2))` puts a negated node holding the negated node of `a`, `b` into the filter |
| `Predicates.ExcludeInvertedMisread` | data_handler.py:189-194 | the tree of `exclude(~Q(a=1, b=2))` holds when `a` and `b` both hold, its SQL ` not  not a AND not b` does not |
| `Predicates.FixedSqlEvalMeans` | data_handler.py:189-194 | with a negated node rendered as ` not ( … ) `, the SQL means what the tree means for every tree whose nested nodes are non-empty |
| `Predicates.FixedPiecesMean` | data_handler.py:178-196 | under the corrected rendering, non-empty children yield one piece each and the pieces mean the children combined by the connector |
| `Predicates.FixedChildMeans` | data_handler.py:182-194 | under the corrected rendering, a non-empty child yields one piece meaning what the child means |
| `Predicates.ExcludeInvertedFixed` | data_handler.py:189-194 | under the corrected rendering, `exclude(~Q(a=1, b=2))` reads as a AND b |
| `Predicates.MakeQ` | data_handler.py:607-618 | `_make_q` keeps the node's connector and negation |
| `Predicates.MakeQEval` | data_handler.py:607-618 | `_make_q` keeps the meaning of every tree |
| `Predicates.AddQEval` | data_handler.py:299-300 | `_add_q` keeps the filter an un-negated AND node and conjoins the new tree |
| `Resolve.FieldInfo` | data_handler.py:765-772 | a plain name is the model's column; `alias__field` is the joined model's column, TypeError for an unknown alias; more than one `__` is the unpacking ValueError |
| `Resolve.Locate` | data_handler.py:741-745 | a plain name stays on the model with no prefix; `alias__x` with a known alias is `x` on the joined model with prefix `alias__`; an unknown alias is the KeyError of that alias; more than one `__` is the unpacking ValueError |
| `Resolve.FieldObj` | data_handler.py:746-748 | `attrs.get(field)` must be a field entry, TypeError when missing or falsy |
| `Resolve.WashOne` | data_handler.py:737-749 | an empty name is the IndexError of `field[0]`; otherwise the sign, the alias prefix and the name of the field the attribute stands for; an unknown alias is the KeyError of that alias, other failures those of the lookup |
| `Resolve.WashFrom` | data_handler.py:735-749 | washing a list yields one washed name per input, in order, and fails exactly when some name fails |
| `Resolve.FieldWashList` | data_handler.py:735-749 | the list loop of `field_wash` computes `FieldWash` |
| `Resolve.WashDictFrom` | data_handler.py:751-762 | washing the dictionary fails exactly when some key fails |
| `Resolve.WashDictFromValues` | data_handler.py:751-762 | each value lands under its washed key unless a later key washes to the same name (the later value wins); names no key washes to keep what they held |
| `Resolve.FieldWashDictLoop` | data_handler.py:751-763 | the dictionary loop of `field_wash` computes `FieldWashDict` |
| `Resolve.WashKeyAgrees` | data_handler.py:741-762 | a dictionary key washes as the same name in the list does |
| `Resolve.WashResolves` | data_handler.py:735-772 | a washed name resolves with `field_info` once its `-` is stripped, and washing changes nothing but `pk` |
| `Resolve.WashIdempotent` | data_handler.py:735-749 | washing a washed name gives it back |
| `Compiler.NewQuery` | data_handler.py:313-325 | a fresh query selects nothing, has no joins, grouping, annotations, ordering or limits, and an empty AND filter |
| `Compiler.CloneQueryIdentity` | data_handler.py:302-306 | cloning a query rebuilds an equal filter and copies every other part |
| `Compiler.FExprFacts` | data_handler.py:203-219 | `f_expr` succeeds exactly when every `F` name resolves; its parameters are the expression's literals left to right |
| `Compiler.FTermFacts` | data_handler.py:209-217 | an operand is `%s` with itself as parameter, or the compiled expression |
| `Compiler.LookupTarget` | data_handler.py:236-252 | a key without `__` is the model's attribute with the `=` lookup; a resolved key always names a non-empty attribute |
| `Compiler.SubQuery` | data_handler.py:279-286 | an `in` sub-query keeps the where node and selects one name: the primary key for a plain set (TypeError without one), the single selected name for a values set (TypeError otherwise) |
| `Compiler.Prefixed` | data_handler.py:190 | every fragment of a negated node gets ` not ` in front, in order |
| `Compiler.RenderChild` | data_handler.py:181-195 | a child renders to at most one fragment |
| `Compiler.AsSql` | data_handler.py:166-175 | an empty filter renders to nothing with no parameters |
| `Compiler.RenderChildrenRendered` | data_handler.py:178-196 | children render to some fragment exactly when some child holds a leaf |
| `Compiler.ColumnsFrom` | data_handler.py:413-416 | one column per name in order, failing exactly when some name does not resolve |
| `Compiler.OrderFrom` | data_handler.py:371-380 | one order item per field in order, `-f` as `<col> desc ` |
| `Compiler.OnSql` | data_handler.py:356-357 | a join pair `(a, b)` is `field_info(a) = field_info(b)`, failing when either side does not resolve |
| `Compiler.OnFromItems` | data_handler.py:355-358 | the condition loop succeeds exactly when every pair resolves and yields, pair by pair, its `a = b` condition |
| `Compiler.AliasNames` | data_handler.py:353 | the joined columns are `alias__x` for every field `x` of the joined model |
| `Compiler.JoinsFrom` | data_handler.py:349-359 | the join loop adds one column per field of every joined model |
| `Compiler.JoinsFromFacts` | data_handler.py:349-359 | the join loop succeeds exactly when every join's columns and conditions resolve, and appends for each join in order ` join <table> on <conditions joined by and>` to the text and its `alias__x` columns to the fields |
| `Compiler.AnnotationSql` | data_handler.py:421 | an annotation is its aggregate's SQL over the resolved field, then ` as <name>` |
| `Compiler.AnnotateFromItems` | data_handler.py:420-421 | the annotation loop succeeds exactly when every aggregate compiles and yields, annotation by annotation, `<aggregate> as <name>` |
| `Compiler.UpdateFrom` | data_handler.py:393-407 | exactly one assignment per update key that is a field; other keys are skipped; parameters only grow |
| `Compiler.UpdateFromFacts` | data_handler.py:393-407 | the update loop succeeds exactly when the value and the column of every field entry compile, and appends for each field entry in order `<column> = %s` with the value, or `<column> = <expression>` with its literals; other keys add nothing |
| `Compiler.CompileQuery` | data_handler.py:332-342 | an update with keys and a non-zero offset, or an update or delete with `group_by`, raises the TypeError with the source's message |
| `CompilerFacts.LookupOnField` | data_handler.py:237-242 | `field__lookup` on a model field or `pk` is that field with that lookup |
| `CompilerFacts.MagicQueryOnField` | data_handler.py:222-297 | the fixed templates take `[value]`; `isnull` emits `is null` / `is not null` by truthiness without parameters; `range` takes the value's elements; `in` takes one tuple, or ` False ` with no parameters for an empty value; an unknown lookup emits nothing |
| `CompilerFacts.MagicQueryPlainKey` | data_handler.py:251-260 | a key without `__` is `' <col> = %s '` with `[value]`; an expression value replaces `%s` with its SQL and its literals replace the parameters |
| `CompilerFacts.MagicQueryUnresolved` | data_handler.py:243-250 | a head that is neither a field (nor `pk` with a primary key) nor an alias raises the TypeError naming it |
| `CompilerFacts.InLookupQuerySet` | data_handler.py:269-288 | a query-set value raises across hosts or without exactly one selected column; otherwise the inner select minus its `;` is spliced in with its parameters |
| `CompilerFacts.RenderChildrenAppend` | data_handler.py:178-196 | fragments and parameters of consecutive children concatenate in child order |
| `CompilerFacts.SilentChild` | data_handler.py:188 | a nested node without leaves contributes no fragment and no parameter |
| `CompilerFacts.SqlExprIgnoresNegation` | data_handler.py:199-201 | the top-level node's negation does not reach the SQL |
| `CompilerFacts.RenderLeaves` | data_handler.py:181-185 | leaves render to their own fragments, parameters in order |
| `CompilerFacts.RenderGroup` | data_handler.py:188-194 | a negated group under the same connector is one fragment of ` not `-prefixed pieces joined by the connector |
| `Predicates.MakeChildrenLeaves` | data_handler.py:612-617 | `_make_q` leaves a node of leaves unchanged |
| `CompilerFacts.FilterTree` | data_handler.py:599-618 | `filter(**kw)` adds the leaves to an empty filter; `exclude(**kw)` adds one negated node holding them |
| `CompilerFacts.FilterLeavesSql` | data_handler.py:599-605 | `filter(**kw)` renders the leaves joined by `AND`, `exclude(**kw)` with ` not ` before each; parameters in order |
| `CompilerFacts.ExcludeNothing` | data_handler.py:170-173 | `exclude()` without conditions leaves a non-empty filter that renders to nothing |
| `CompilerFacts.CompileEndsWithSemicolon` | data_handler.py:408-430 | every statement ends with `;` |
| `CompilerFacts.CompileParams` | data_handler.py:361-407 | parameters are update values, then where, then limit, then offset |
| `CompilerFacts.LimitOffsetOnly` | data_handler.py:383-390 | an offset alone brings the limit 18446744073709551615, written before the offset |
| `CompilerFacts.CountWrapsSelect` | data_handler.py:423-428 | `count` fails exactly when `select` does, has its parameters, and wraps the select as a sub-query when distinct or limited |
| `CompilerFacts.UpdateSkipsNonFields` | data_handler.py:396-398 | update keys that are not fields add nothing |
| `CompilerLoops.RenderLoop` | data_handler.py:178-196 | the `_sql_expr` loop computes `RenderChildren` |
| `CompilerLoops.SqlExprLoop` | data_handler.py:199-201 | `sql_expr` computes `SqlExpr` |
| `CompilerLoops.AsSqlLoop` | data_handler.py:166-175 | `as_sql` computes `AsSql` |
| `CompilerLoops.ColumnsLoop` | data_handler.py:413-416 | the column loop computes `ColumnsFrom` |
| `CompilerLoops.OrderLoop` | data_handler.py:371-380 | the order-by loop computes `OrderFrom` |
| `CompilerLoops.OnLoop` | data_handler.py:355-358 | the join-condition loop computes `OnFrom` |
| `CompilerLoops.JoinLoop` | data_handler.py:349-359 | the join loop computes `JoinsFrom` |
| `CompilerLoops.AnnotateLoop` | data_handler.py:420-421 | the aggregate loop computes `AnnotateFrom` |
| `CompilerLoops.UpdateLoop` | data_handler.py:394-406 | the update loop computes `UpdateFrom` |
| `CompilerLoops.ClausesLoop` | data_handler.py:348-390 | the clause assembly computes `BuildClauses` |
| `CompilerLoops.QuerySqlExpr` | data_handler.py:332-431 | `Query.sql_expr` computes `CompileQuery` |
| `Slicing.SliceLimits` | data_handler.py:621-645 | a slice always sets the offset and keeps the limit without a `stop` |
| `Slicing.SliceFresh` | data_handler.py:630-643 | without prior limits, `[s:t]` selects `t - s` rows from `s`; `t < s` stores a negative limit; `t == s` stores none |
| `Slicing.SliceWithinWindow` | data_handler.py:635-639 | inside a window, a slice selects the rows the two windows share |
| `Slicing.SliceOpenEnd` | data_handler.py:625-643 | without `stop` only the offset moves |
| `Slicing.SliceZeroKeepsLimit` | data_handler.py:642-643 | `qs[0:5][5:10]` keeps the limit 5 and selects rows 5 to 9 |
| `Slicing.SliceBeyondWindow` | data_handler.py:635-637 | a start past the window resets the offset and keeps the whole window |
| `Slicing.SliceOpenIgnoresWindow` | data_handler.py:630-643 | `qs[0:5][2:]` is offset 2 limit 5 and `qs[0:5][7:]` offset 7 limit 5: an open slice is not cut to the window |
| `Slicing.SliceOfSliceExamples` | data_handler.py:621-645 | `qs[2:7][1:3]` is offset 3 limit 2; `qs[8:20][0:5]` is offset 8 limit 5 |
| `Rows.Zip` | data_handler.py:656 | `zip` pairs up to the shorter side |
| `Rows.DataToObj` | data_handler.py:654-663 | the `data_to_obj` loop computes `RowToObject` |
| `Rows.InstanceOfFacts` | data_handler.py:656 | a model built from a row segment sets its `k`-th field to the `k`-th value, None past the end |
| `Rows.RowToObjectFields` | data_handler.py:654-656 | `data_to_obj` gives an instance of the model whose fields take the first columns |
| `Rows.RowToObjectJoins` | data_handler.py:657-662 | each join alias holds the joined model built from the columns after the model's and the earlier joins' |
| `Rows.ZipWindow` | data_handler.py:659-660 | zipping a join model's field names with `value[s:s + len(field_list)]` pairs them exactly as with `value[s:]`, the window the model reads |
| `Rows.JoinObjectFacts` | data_handler.py:659-660 | a joined instance takes its columns from its start column on |
| `Rows.ValuesDictFacts` | data_handler.py:694-696 | a values row succeeds exactly when the row is long enough; each name maps to its own column, keys in order |
| `Rows.ValuesFromShort` | data_handler.py:696 | a row shorter than the names raises IndexError |
| `Rows.ToItem` | data_handler.py:654-724 | a plain set yields `data_to_obj`, a values set the dictionary, a values-list set the row or, when flat, its first column |
| `Rows.JoinedNames` | data_handler.py:685-686 | one `alias__x` per field of every joined model |
| `Rows.ValuesListFields` | data_handler.py:705-709 | a flat values-list set needs exactly one selected name, else TypeError; the annotation names follow the selected ones |
| `Rows.ValuesFieldsAlign` | data_handler.py:682-686 | a values set's names match the statement's columns one to one when names were selected or nothing annotated |
| `Rows.AnnotateShiftsValues` | data_handler.py:535-538 | `annotate` without grouping names only the aggregates while the first column is the first field |
| `QueryOps.ClonedQuery` | data_handler.py:587-596 | `_clone` copies the query, replaces `select` when given, and sets `flat` when true |
| `QueryOps.SelectField` | data_handler.py:682-709 | `select_field` of a values-list set is the selected names then the annotation names |
| `QueryOps.FilteredEval` | data_handler.py:599-605 | `filter` conjoins the new condition and `exclude` its negation, keeping the filter an AND node |
| `QueryOps.FilterTwice` | data_handler.py:460-465 | filtering twice means filtering once by both conditions |
| `QueryOps.OperationsKeepModel` | data_handler.py:490-532 | `order_by` replaces only the ordering, `group_by` only appends, and a slice always sets the offset |
| `QueryOps.Joined` | data_handler.py:553-558 | an alias that is a field, or already an alias, raises the TypeError with the source's message |
| `QueryOps.JoinedFacts` | data_handler.py:553-565 | a join on a free alias succeeds exactly when keys and values wash; the alias comes last with one condition per keyword, other aliases unchanged |
| `QueryOps.JoinedKeepsAliasesSound` | data_handler.py:555-560 | joins never repeat an alias or use a field name as one |
| `QueryOps.DistinctAsWrittenMisaligned` | data_handler.py:541-550 | `distinct(*names)` on a plain set names more values than its statement selects, so a row raises IndexError |
| `QueryOps.DistinctAligned` | data_handler.py:541-550 | with the names selected before the values set is built, every name maps to its own column |
| `QuerySets.Database.Execute` | data_handler.py:960-966 | a call is logged and answered by the oracle |
| `QuerySets.FetchScalar` | data_handler.py:479 | `(n,) = fetchone()` succeeds exactly for a first row of one column |
| `QuerySets.ItemsFromOk` | data_handler.py:666-670 | iteration succeeds exactly when every row becomes an element |
| `QuerySets.ItemsFromValues` | data_handler.py:666-670 | iteration yields one element per row, in order |
| `QuerySets.ItemsFromErr` | data_handler.py:666-670 | a failing iteration raises what some row raises |
| `QuerySets.QuerySet.constructor` | data_handler.py:449-453 | a set over a query starts without cached rows, with the `select_field` of its kind |
| `QuerySets.QuerySet.Of` | data_handler.py:449-453 | `QuerySet(model)` is a plain set over a fresh query |
| `QuerySets.QuerySet.Clone` | data_handler.py:587-596 | a fresh set over a copy of the query, uncached; raises only when a values-list set refuses it |
| `QuerySets.QuerySet.All` | data_handler.py:456-457 | `all()` is a fresh uncached copy |
| `QuerySets.QuerySet.FilterOrExclude` | data_handler.py:599-605 | the clone's filter gains the condition, negated for `exclude`; the receiver is unchanged |
| `QuerySets.QuerySet.Filter` | data_handler.py:460-461 | `filter` is `_filter_or_exclude(False, …)` |
| `QuerySets.QuerySet.Exclude` | data_handler.py:464-465 | `exclude` is `_filter_or_exclude(True, …)` |
| `QuerySets.QuerySet.OrderBy` | data_handler.py:490-494 | the washed names replace the clone's ordering, or the washing error |
| `QuerySets.QuerySet.GroupBy` | data_handler.py:528-532 | the washed names are appended to the clone's grouping |
| `QuerySets.QuerySet.Values` | data_handler.py:512-514 | a values set selecting the washed names, or the previous selection when none are given |
| `QuerySets.QuerySet.ValuesList` | data_handler.py:517-525 | succeeds exactly when the names wash, `flat` is not given with more than one name, and the clone can be built; a washing failure is raised as is, the others are the flat TypeError; a flat result has one selected name |
| `QuerySets.QuerySet.Annotate` | data_handler.py:535-538 | the aggregates go into the receiver's own query first; the result is a values set selecting the grouped names |
| `QuerySets.QuerySet.DistinctAsWritten` | data_handler.py:541-550 | succeeds exactly when the clone is constructible and the names (if any) wash; the clone is built before the names are selected, then made distinct |
| `QuerySets.QuerySet.Distinct` | data_handler.py:541-550 | succeeds exactly when the names (if any) wash and the clone selecting them is constructible, FlatError otherwise; its `select_field` is the names and the annotations |
| `QuerySets.QuerySet.Join` | data_handler.py:553-565 | the clone's query gains the join, or the join's error |
| `QuerySets.QuerySet.Slice` | data_handler.py:621-645 | the clone's limits move into the window; the receiver's `limit_dict` is unchanged |
| `QuerySets.QuerySet.Select` | data_handler.py:568-571 | the select runs at most once: with cached rows nothing is sent and the cache is returned |
| `QuerySets.QuerySet.Count` | data_handler.py:475-480 | with cached rows, their number and no statement; otherwise one count statement |
| `QuerySets.QuerySet.Update` | data_handler.py:483-487 | no keywords sends nothing; otherwise the keys washed against the model, then one update statement or the compiler's error |
| `QuerySets.QuerySet.Delete` | data_handler.py:507-509 | one delete statement, or the compiler's error |
| `QuerySets.QuerySet.BaseIndex` | data_handler.py:573-580 | the cached row at the index, or the first row of `self[i:i+1]`; IndexError when absent |
| `QuerySets.QuerySet.FirstItem` | data_handler.py:468-472 | `first()` is None exactly when the element at 0 raises IndexError; other errors propagate |
| `QuerySets.QuerySet.GetIndex` | data_handler.py:583-585 | the element the set makes of the row `base_index` finds |
| `QuerySets.QuerySet.Index` | data_handler.py:646-650 | a negative index raises TypeError without a statement |
| `QuerySets.QuerySet.First` | data_handler.py:468-472 | `first()` computes `FirstItem` |
| `QuerySets.QuerySet.Exists` | data_handler.py:503-504 | `exists()` is the truth of `first()` |
| `QuerySets.QuerySet.Iterate` | data_handler.py:666-670 | an uncached set sends its select once, logs it and caches the answer; a cached one sends nothing; then each cached row is shaped in order |
| `QuerySets.QuerySet.ItemsOf` | data_handler.py:666-670 | the iteration loop computes `ItemsFrom` |
| `QuerySets.IterateAgreesWithIndex` | data_handler.py:666-696 | iteration yields one element per row, the one indexing gives at that position |

## Findings

| source | as written | input that shows it | evidently intended | confidence | as-written member | corrected member |
|---|---|---|---|---|---|---|
| data_handler.py:189-194 | a negated nested node puts ` not ` before each of its pieces, and a piece with the parent's connector is not parenthesised, so a ` not ` falls on the first condition of such a piece only | `exclude(~Q(a=1, b=2))` renders ` not  not a AND not b`: with `a` and `b` both true the tree holds and the SQL does not (and `exclude(a=1, b=2)` renders `not a AND not b`, "neither") | a negated node renders as ` not ( … ) `, the form `Q.__repr__` prints | not executed | `Predicates.ExcludeInvertedMisread` | `Predicates.FixedSqlEvalMeans` |
| data_handler.py:541-550 | `distinct(*names)` on a plain set builds the `ValuesQuerySet` clone, which fixes `select_field`, before setting `select` to the names | `Model.objects.distinct('a')` on a model with fields `id, a, b`: `select_field` is `id, a, b` but each row has one column, so reading a row raises IndexError | the values set names exactly the distinct fields | not executed | `QueryOps.DistinctAsWrittenMisaligned` | `QueryOps.DistinctAligned` |

`QuerySets.QuerySet.DistinctAsWritten` is the operation as written, and
`QuerySets.QuerySet.Distinct` is the corrected one. `Predicates.PieceOf` is
the rendering as written, which `Compiler.RenderChild` spells out as text, and
`Predicates.FixedPieceOf` the corrected one.

## Left out

- `Database` (connection pooling, `connect`, `executemany`) and `execute_raw_sql`: network I/O. Execution is the `Database` oracle object.
- `Model.save`, `Model._insert`, `Model._get_pk_val`, `QuerySet.create` and `Manager.bulk_create`: database round trips. Setting `pk` through its property is kept, as `Schema.SetAttr`.
- `Manager`: each method only delegates to a fresh `QuerySet(model)`, which is `QuerySet.Of`.
- `Query.__str__`, every `__repr__` and `Model.__hash__`: display only.
- Generator laziness of `__iter__`: iteration is one pass over the cached rows.
- `MetaModel`'s runtime introspection: class bodies are explicit lists of entries, merged along a given MRO. `Model.db_info`'s read of the global configuration is the schema's `config` field.
- Lookup and row values are None, bool, int, str or tuple. Floats, dates and other driver types are not modelled.
- A query set used as a lookup value outside `in` is an `Unsupported` error. In Python a fixed template (`gt`, `contains`, …) sends the query set object itself as the parameter without running it, `isnull` runs it to test its truth, and `range` runs it when its rows are spread into the parameters.
- A positional argument of `Q(...)` that is neither a `Q` nor a `(lookup, value)` pair: Python keeps it and fails only when it is rendered; the model's children are nodes and pairs.
- `Expressions.Apply`: a string left of `%` whose text holds a `%` is an `Unsupported` error. Python formats the expression's text into the string, or raises a formatting TypeError, depending on the directives.
- `Predicates.Add`, `Predicates.Combine` and `Predicates.Invert`: Q nodes are values. In Python `add` changes its node in place, and `_combine` and `__invert__` may put an operand object itself into the new tree, so a later `add` on a shared node would change every tree holding it. The query layer never adds to a node after sharing it, but the model does not capture that aliasing.
- `__getitem__` with an index that is neither a slice nor an int (it returns None), and a slice's `step` (ignored by the code): not modelled.
- `QuerySets.QuerySet.Count`: does not state how the driver's count becomes a number beyond `FetchScalar`. The row shape of the count answer is whatever the oracle returns.
