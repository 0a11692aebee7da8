# HybridSE: syntax-tree conversion and the physical-plan context

This project models two parts of HybridSE's SQL front end and planner.

The first is the converter in `src/planv2/ast_node_converter.cc`. It turns the
syntax tree built by the ZetaSQL parser into HybridSE's own AST. It covers
expressions, literals, window clauses, FROM items, SELECT and UNION,
ORDER BY / LIMIT, statements, CREATE TABLE (columns, indexes and table options)
and CREATE PROCEDURE. Every conversion returns a status (OK, kSqlError,
kPlanError or kTypeError) and a node. The first failing child decides the status.

The second is the physical-plan context in `src/vm/physical_plan_context.h`.
It hands out unique column ids and keeps the maps from table columns and
request columns to those ids. It also runs the two-phase protocol
(InitSchema, then FinishSchema) by which operators are created and rebuilt.

Layout:

- `wrappers.dfy`: `Option` and `Result`. `Result` models a status: `Err(code)` is a failing status and `:-` is CHECK_STATUS. It also holds `Prepend`, the bridge between a loop's accumulated list and the list a recursive definition gives.
- `syntax.dfy`: the parser's node kinds. `None` in a field is a null child.
- `ast.dfy`: the produced nodes.
- `literals.dfy`: the literal helpers, plus explicit stand-ins for the runtime's string-to-number, string-to-bool and type-name primitives.
- `convert_spec.dfy` and `ddl_spec.dfy`: the meaning of every conversion, as total functions, one per C++ function or case.
- `converter.dfy` and `ddl_converter.dfy`: the conversions as the C++ code runs them, with its loops, early returns and in-place updates (SetOver, SetName, SetLimit, SetOrder, AddKey). Each method is proved equal to its specification function.
- `expr_properties.dfy`, `query_properties.dfy` and `ddl_properties.dfy`: what the conversions guarantee, proved about the specification functions.
- `findings.dfy`: two null dereferences in the code as written (see Findings).
- `plan_context.dfy`: the context as a class. Its fields are the counter and the id maps, and `Valid()` is the invariant every method keeps.

## Model

| member | source | states |
|---|---|---|
| Converter.ConvertExprNode | src/planv2/ast_node_converter.cc:30-340 | the expression dispatch, with operands converted in C++ order, yields exactly ConvertSpec.ConvertExprNode |
| Converter.ConvertBinaryExpression | src/planv2/ast_node_converter.cc:79-149 | the binary case converts both operands in order, then applies the operator table or fails with kSqlError; yields ConvertSpec.ConvertExprNode |
| Converter.ConvertUnaryExpression | src/planv2/ast_node_converter.cc:150-176 | the unary case converts the operand, then applies the operator table or fails with kSqlError |
| Converter.ConvertBetweenExpression | src/planv2/ast_node_converter.cc:209-220 | the value compared, then the low and high bounds, converted in order, keeping NOT |
| Converter.ConvertJunction | src/planv2/ast_node_converter.cc:177-208 | no operands is kSqlError; otherwise the first operand and then the loop yield ConvertSpec.ConvertJunction |
| Converter.FoldJunction | src/planv2/ast_node_converter.cc:181-191 | the loop folds each further operand in on the right of the accumulated node and stops at the first failure, yielding ConvertSpec.Chain over the converted operands |
| Converter.ConvertExprs | src/planv2/ast_node_converter.cc:426-440 | the list loop stops at the first failure and otherwise yields ConvertSpec.ConvertExprs |
| Converter.ConvertExprNodeList | src/planv2/ast_node_converter.cc:426-440 | an empty list yields no list; otherwise the converted list |
| Converter.ConvertCall | src/planv2/ast_node_converter.cc:221-229 | the function-call case yields ConvertSpec.ConvertCall |
| Converter.ConvertOptExpr | src/planv2/ast_node_converter.cc:30-37 | a null expression converts to no node with an OK status |
| Converter.ConvertOrderBy | src/planv2/ast_node_converter.cc:373-390 | the ORDER BY loop builds the expressions and ascending flags of ConvertSpec.ConvertOrderBy |
| Converter.ConvertOptOrderBy | src/planv2/ast_node_converter.cc:373-380 | a missing ORDER BY gives no node with an OK status |
| Converter.ConvertFrameBound | src/planv2/ast_node_converter.cc:441-486 | yields ConvertSpec.ConvertFrameBound: the boundary table plus the converted offset |
| Converter.ConvertFrameNode | src/planv2/ast_node_converter.cc:487-525 | yields the frame unit, start, end and max size of ConvertSpec.ConvertFrameNode |
| Converter.ConvertUnionTables | src/planv2/ast_node_converter.cc:539-573 | the UNION tables loop yields ConvertSpec.ConvertTableExprs |
| Converter.ConvertWindowSpecification | src/planv2/ast_node_converter.cc:539-573 | PARTITION BY, ORDER BY, frame and UNION tables converted in order, then SetName, SetUnion and the two flags; yields ConvertSpec.ConvertWindowSpecification |
| Converter.ConvertWindowDefinition | src/planv2/ast_node_converter.cc:526-538 | a named definition overrides the specification's name |
| Converter.ConvertSelectList | src/planv2/ast_node_converter.cc:574-590 | one ResTarget per column, alias or "", in order |
| Converter.ConvertTableExpressionNode | src/planv2/ast_node_converter.cc:591-690 | yields ConvertSpec.ConvertTableExpressionNode, which refuses a join without an ON clause |
| Converter.ConvertGroupItems | src/planv2/ast_node_converter.cc:691-704 | the GROUP BY loop yields the converted grouping items |
| Converter.ConvertWindowClause | src/planv2/ast_node_converter.cc:705-720 | the WINDOW clause loop yields ConvertSpec.ConvertWindowDefinitions |
| Converter.ConvertLimitOffsetNode | src/planv2/ast_node_converter.cc:721-750 | yields ConvertSpec.ConvertLimitOffsetNode |
| Converter.ConvertQueryNode | src/planv2/ast_node_converter.cc:751-776 | ORDER BY and LIMIT are converted first and are set on the node only if it is a SELECT |
| Converter.ConvertSelect | src/planv2/ast_node_converter.cc:781-819 | the SELECT case yields a non-distinct select node with no order or limit |
| Converter.ConvertUnion | src/planv2/ast_node_converter.cc:820-841 | the UNION loop's left fold over the inputs, each node flagged !distinct |
| Converter.ConvertQueryExpr | src/planv2/ast_node_converter.cc:778-855 | dispatch on SELECT, set operation and anything else (kPlanError) |
| Converter.ConvertStmt | src/planv2/ast_node_converter.cc:342-371 | a query statement gives a query node, a BEGIN ... END block a node list built by a loop, anything else kSqlError |
| DdlConverter.ConvertCreateTableNode | src/planv2/ast_node_converter.cc:862-901 | yields DdlSpec.ConvertCreateTableNode |
| DdlConverter.ConvertTableElements | src/planv2/ast_node_converter.cc:873-880 | the table element loop keeps one node per element, in order |
| DdlConverter.ConvertTableOptions | src/planv2/ast_node_converter.cc:885-895 | the option loop keeps exactly the options that produced a node, in order, and fails with the first failing option's status |
| DdlConverter.ConvertTableElement | src/planv2/ast_node_converter.cc:931-979 | a column with a simple schema, an index, or kPlanError |
| DdlConverter.ConvertColumnIndexNode | src/planv2/ast_node_converter.cc:983-996 | the index option loop keeps the options that produced a node |
| DdlConverter.ConvertIndexOption | src/planv2/ast_node_converter.cc:1004-1135 | the lower-cased name selects key, ts, ttl, ttl_type or version; any other name is OK with no node |
| DdlConverter.ConvertIndexKeys | src/planv2/ast_node_converter.cc:1008-1044 | the first key, then AddKey for each further field, yields DdlSpec.ConvertIndexKeys |
| DdlConverter.ConvertTableOption | src/planv2/ast_node_converter.cc:1141-1184 | partitionnum, replicanum or distribution; any other name is OK with no node |
| DdlConverter.ConvertDistribution | src/planv2/ast_node_converter.cc:1157-1179 | the distribution loop pushes a leader node and a follower node per element |
| DdlConverter.ConvertDistributionElement | src/planv2/ast_node_converter.cc:1158-1175 | one element's checks, leader and follower nodes, equal to DdlSpec.ConvertDistributionElement |
| DdlConverter.ConvertFollowers | src/planv2/ast_node_converter.cc:1168-1173 | the follower loop yields each follower's string, in order |
| DdlConverter.ConvertCreateProcedureNode | src/planv2/ast_node_converter.cc:905-923 | the parameter loop, then the body, yield DdlSpec.ConvertCreateProcedureNode |
| DdlConverter.ConvertProcedureBody | src/planv2/ast_node_converter.cc:1221-1231 | exactly one statement, which must convert to a node list |
| Syntax.PathString | src/planv2/ast_node_converter.cc:1243-1249 | a one-name path is that name |
| Literals.StringToBigint | src/planv2/ast_node_converter.cc:1254-1268 | the value read is always within int64 |
| Literals.StringToBigintDecimal | src/planv2/ast_node_converter.cc:1254-1268 | the decimal text of every natural n up to the int64 maximum reads back as n |
| Literals.StringToBool | src/planv2/ast_node_converter.cc:265-278 | accepted exactly for "true"/"false" in any case, with the matching value |
| Literals.ToLower | src/planv2/ast_node_converter.cc:1141-1144 | same length, each letter lower-cased |
| Literals.StringToDataType | src/planv2/ast_node_converter.cc:953-955 | an unknown type name is kTypeError |
| Literals.WrapInt32 | src/planv2/ast_node_converter.cc:1124 | static_cast<int>: the result is in int32 range, congruent to the input modulo 2^32, and equal to it when it already fits |
| Literals.IntLiteralToNum | src/planv2/ast_node_converter.cc:1254-1268 | a non-int literal is kPlanError; an int literal reads as an int64 or is kTypeError |
| Literals.IntervalLiteralToNum | src/planv2/ast_node_converter.cc:1271-1303 | a non-interval literal is kPlanError; success has unit day, hour, minute or second and an int64 count |
| Literals.PathExpressionToString | src/planv2/ast_node_converter.cc:1243-1249 | succeeds exactly on a path expression; otherwise kPlanError |
| Literals.StringLiteralToString | src/planv2/ast_node_converter.cc:1234-1240 | succeeds exactly on a string literal, with its value; otherwise kPlanError |
| ConvertSpec.AscFlags | src/planv2/ast_node_converter.cc:373-390 | one flag per ordering item |
| DdlSpec.Present | src/planv2/ast_node_converter.cc:885-895 | keeps at most as many nodes as it was given |
| DdlSpec.ConvertDistribution | src/planv2/ast_node_converter.cc:1157-1179 | converts exactly when every element does, element i giving nodes 2i and 2i+1; errors are kPlanError |
| DdlSpec.ConvertDistributionElement | src/planv2/ast_node_converter.cc:1157-1179 | converts exactly a (string, array of strings) pair, into a leader node with the string and a follower node with the last follower, or "" when there is none; otherwise kPlanError |
| DdlSpec.StringLiterals | src/planv2/ast_node_converter.cc:1168-1173 | converts exactly when every element is a string literal, each to its own value at its position; otherwise kPlanError |
| ExprProperties.ColumnPathArity | src/planv2/ast_node_converter.cc:60-78 | converts iff the path has 1, 2 or 3 names; MakeColumnRefNode gets (n0, ""), (n0, n1) or (n0, n1, n2) in that order; a longer path is kSqlError |
| ExprProperties.DotStarArity | src/planv2/ast_node_converter.cc:391-425 | `t.*` gives MakeAllNode(t, "") and `a.b.*` gives MakeAllNode(a, b); converts iff the qualifier is a path of one or two names, else kSqlError |
| ExprProperties.ExprsPointwise | src/planv2/ast_node_converter.cc:426-440 | a list converts exactly when every element does, each result at its element's position |
| ExprProperties.ExprsFirstFailure | src/planv2/ast_node_converter.cc:426-440 | a failing list fails with the status of its first failing element, all before it converting |
| Wrappers.MapResult | src/planv2/ast_node_converter.cc:426-440 | one result per element on success |
| Wrappers.MapPointwise | src/planv2/ast_node_converter.cc:426-440 | a list converted element by element with CHECK_STATUS converts exactly when every element does, result i being element i's |
| Wrappers.MapFirstFailure | src/planv2/ast_node_converter.cc:426-440 | such a list that fails carries its first failing element's status, every earlier element converting |
| ExprProperties.ExprNodeListEmpty | src/planv2/ast_node_converter.cc:426-440 | an empty list gives no list; a non-empty one a list of the same length |
| ExprProperties.JunctionShape | src/planv2/ast_node_converter.cc:177-208 | N operands give a left-leaning chain of N-1 nodes over the converted operands in order; no operands is kSqlError |
| ExprProperties.AndShape | src/planv2/ast_node_converter.cc:177-193 | AND converts exactly when every conjunct does, as N-1 And nodes over them in order |
| ExprProperties.OrShape | src/planv2/ast_node_converter.cc:194-208 | OR converts exactly when every disjunct does, as N-1 Or nodes over them in order |
| ExprProperties.ThreeConjuncts | src/planv2/ast_node_converter.cc:177-193 | `a AND b AND c` is `(a AND b) AND c` |
| ExprProperties.NotEqualSpellings | src/planv2/ast_node_converter.cc:92-96 | `!=` and `<>` give the same node, a not-equal node |
| ExprProperties.UnsupportedBinaryOperator | src/planv2/ast_node_converter.cc:79-149 | operand failures come first; then an operator outside the table is kSqlError |
| ExprProperties.BinaryCase | src/planv2/ast_node_converter.cc:79-149 | the result does not depend on the parser's NOT flag; the left operand's failure comes first, then the right's; then the operator table gives the node, and an operator outside it is kSqlError |
| ExprProperties.NotLikeAsLike | src/planv2/ast_node_converter.cc:79-149 | `c NOT LIKE p` converts to the same LIKE node as `c LIKE p` |
| ExprProperties.BinaryOperatorRange | src/planv2/ast_node_converter.cc:86-148 | exactly the fourteen listed operators are supported, never mapped to NOT/AND/OR |
| ExprProperties.UnarySigns | src/planv2/ast_node_converter.cc:150-176 | unary plus becomes Add, unary minus becomes Minus, bitwise NOT is refused |
| ExprProperties.BetweenShape | src/planv2/ast_node_converter.cc:209-220 | converts iff value, low and high all convert, to a BETWEEN node of the three with NOT kept; the first failure in that order is the status |
| ExprProperties.UnaryCase | src/planv2/ast_node_converter.cc:150-176 | the operand's failing status comes first; then the operator table gives the node, and an operator outside it fails |
| ExprProperties.CallModifiersRefused | src/planv2/ast_node_converter.cc:221-229 | a call with a modifier is kSqlError; a call keeps its dotted name and has no OVER window |
| ExprProperties.AnalyticCallOver | src/planv2/ast_node_converter.cc:230-243 | an analytic call is the plain call with its converted window attached |
| ExprProperties.IntLiteralClassification | src/planv2/ast_node_converter.cc:244-258 | hex is kSqlError; a converted literal is an int32 constant in range or an int64 constant outside it |
| ExprProperties.DecimalIntLiteral | src/planv2/ast_node_converter.cc:244-258 | the decimal n, with or without L, is IntConst(n) when n fits in int32, else BigIntConst(n) |
| ExprProperties.DigitsIntLiteral | src/planv2/ast_node_converter.cc:244-258 | a digit string that reads as v, with or without L, is IntConst(v) inside int32 and BigIntConst(v) outside |
| ExprProperties.IntervalUnitTable | src/planv2/ast_node_converter.cc:1275-1293 | the unit depends only on the last character: d/D, h/H, m/M, s/S |
| ExprProperties.IntervalLiteralValue | src/planv2/ast_node_converter.cc:306-315 | `<n><u>` is the constant n in unit u; an unknown unit is kTypeError |
| ExprProperties.BoolLiteralValue | src/planv2/ast_node_converter.cc:265-278 | a boolean literal converts exactly for true/false in any case; otherwise kSqlError |
| QueryProperties.UnionShape | src/planv2/ast_node_converter.cc:820-846 | N inputs give N-1 left-leaning union nodes, each ALL iff not DISTINCT, over the converted inputs in order; fewer than two inputs or EXCEPT/INTERSECT is kSqlError |
| QueryProperties.SelectDefaults | src/planv2/ast_node_converter.cc:781-819 | a SELECT is non-distinct whatever its DISTINCT flag, with no order or limit; target i is column i's converted expression with its alias or ""; the FROM clause gives its one table ref; WHERE and HAVING are converted; GROUP BY item i and WINDOW definition i are converted at position i |
| QueryProperties.SelectColumnsAsMap | src/planv2/ast_node_converter.cc:574-590 | the select list converts as the first-failure map of ConvertSelectColumn |
| QueryProperties.WindowDefinitionsAsMap | src/planv2/ast_node_converter.cc:705-720 | the WINDOW clause converts as the first-failure map of ConvertWindowDefinition |
| QueryProperties.LimitRules | src/planv2/ast_node_converter.cc:721-750 | OFFSET is kSqlError; LIMIT converts exactly for an integer-typed constant, whose value is the count |
| QueryProperties.DecimalLimit | src/planv2/ast_node_converter.cc:721-750 | `LIMIT n` for decimal n in int64 range is a limit of n |
| QueryProperties.NonIntegerLimit | src/planv2/ast_node_converter.cc:733-748 | a string, boolean or identifier limit is kSqlError |
| QueryProperties.OrderLimitOnlyForSelect | src/planv2/ast_node_converter.cc:751-776 | ORDER BY and LIMIT errors come first; they are attached to a SELECT, all else kept, and dropped for a UNION |
| QueryProperties.OrderByShape | src/planv2/ast_node_converter.cc:373-390 | one expression and one flag per item, in order; ascending iff not DESC |
| QueryProperties.BoundTypeInjective | src/planv2/ast_node_converter.cc:441-486 | the bound type determines the boundary, and for offsets its openness |
| QueryProperties.BoundTypeOpenness | src/planv2/ast_node_converter.cc:441-486 | openness matters only for offset boundaries |
| QueryProperties.FrameShape | src/planv2/ast_node_converter.cc:487-525 | converts iff the start offset, end offset and max size all convert, and the start's failure comes before the end's; the unit is kept, start and end are the boundary table's types with the converted offsets, and the max size is the converted expression |
| QueryProperties.WindowNamePrecedence | src/planv2/ast_node_converter.cc:526-538 | the definition's name wins over the base window name; nothing else changes |
| QueryProperties.WindowSpecShape | src/planv2/ast_node_converter.cc:539-573 | the base name and both flags are kept; PARTITION BY expression i, ORDER BY item i (ascending iff not DESC) and UNION table i are converted at position i; an empty PARTITION BY gives none; the frame is the converted frame |
| QueryProperties.TableExprsAsMap | src/planv2/ast_node_converter.cc:559-565 | the UNION tables convert as the first-failure map of ConvertTableExpressionNode |
| QueryProperties.ExprSubqueryShape | src/planv2/ast_node_converter.cc:52-59 | an expression subquery is a query expression over the converted query, with the query's status when it fails |
| QueryProperties.TableSubqueryShape | src/planv2/ast_node_converter.cc:673-680 | a FROM subquery is a query reference over the converted query with its alias or "", with the query's status when it fails |
| QueryProperties.TablePathShape | src/planv2/ast_node_converter.cc:599-619 | a table node with the last name and the alias; more than two names or PIVOT, UNPIVOT, FOR SYSTEM_TIME, WITH OFFSET, TABLESAMPLE or a hint is kSqlError |
| QueryProperties.JoinKinds | src/planv2/ast_node_converter.cc:620-672 | LAST JOIN gives a last-join node, other kinds a join node never of kind last; default, COMMA and CROSS are refused, as are hints, USING and NATURAL |
| QueryProperties.JoinWithoutConditionRefused | src/planv2/ast_node_converter.cc:620-637 | a join without ON is kSqlError once both sides and its ORDER BY have converted |
| QueryProperties.FromClauseSingle | src/planv2/ast_node_converter.cc:790-797 | a FROM clause gives a list of exactly its one converted table reference |
| QueryProperties.StatementShapes | src/planv2/ast_node_converter.cc:342-371 | a query statement gives its query node; a block converts exactly when every statement does, node i being statement i's node, and otherwise fails with its first failing statement's status; others are kSqlError |
| QueryProperties.StmtsAsMap | src/planv2/ast_node_converter.cc:356-360 | a block's statements convert as the first-failure map of ConvertStmt |
| DdlProperties.PresentAllSome | src/planv2/ast_node_converter.cc:885-895 | when every option yields a node, all are kept in order |
| DdlProperties.UnknownTableOptionSkipped | src/planv2/ast_node_converter.cc:885-895 | an unknown table option is OK with no node, and the list equals the one written without it |
| DdlProperties.UnknownIndexOptionSkipped | src/planv2/ast_node_converter.cc:983-996 | an unknown index option is OK with no node, and the index equals the one written without it |
| DdlProperties.KnownOptionsProduceNodes | src/planv2/ast_node_converter.cc:1004-1135 | a known option that converts always yields a node |
| DdlProperties.OptionNameCase | src/planv2/ast_node_converter.cc:1006-1007 | option names match regardless of letter case |
| DdlProperties.IndexKeysShape | src/planv2/ast_node_converter.cc:1008-1044 | `key` gives one column for a path, one per field in order for a non-empty list of paths; otherwise kPlanError |
| DdlProperties.TtlShapes | src/planv2/ast_node_converter.cc:1050-1097 | `ttl` converts exactly when its literals do: an interval gives [(v, unit)] with the literal's count and unit, an int [(v, Latest)], a pair [(v1, unit), (v2, Latest)] in that order; a pair of another size or any other value is kPlanError |
| DdlProperties.TtlDaysAndCount | src/planv2/ast_node_converter.cc:1072-1089 | `ttl=(<a>d, <b>)` is an interval of a days together with a count of b with unit Latest |
| DdlProperties.VersionShape | src/planv2/ast_node_converter.cc:1103-1133 | `version` is a column, or a column with a count truncated to 32 bits; anything else is kPlanError |
| DdlProperties.VersionCount | src/planv2/ast_node_converter.cc:1111-1126 | `version=(c, n)` stores WrapInt32(n) |
| DdlProperties.VersionCountNarrowed | src/planv2/ast_node_converter.cc:1124 | a count of 2^32 + k is stored as k |
| DdlProperties.DistributionShape | src/planv2/ast_node_converter.cc:1157-1179 | converts exactly when every element is a (string, array of strings) pair; node 2i is a leader with element i's string and node 2i+1 a follower with its last follower or ""; errors are kPlanError |
| DdlProperties.DistributionLastFollower | src/planv2/ast_node_converter.cc:1168-1176 | of the followers `f1`, `f2` only `f2` is kept, and an empty follower list gives "" |
| DdlProperties.DistributionElementWithoutFollowerList | src/planv2/ast_node_converter.cc:1168-1170 | a second field that is not an array is kPlanError |
| DdlProperties.TableOptionValues | src/planv2/ast_node_converter.cc:1145-1156 | partitionnum and replicanum take an int literal, distribution an array; otherwise kPlanError |
| DdlProperties.CreateTableShape | src/planv2/ast_node_converter.cc:862-901 | keeps the table name and IF NOT EXISTS; column i is table element i's node; the options are the produced option nodes in order, option i converted at position i |
| DdlProperties.TableElementsAsMap | src/planv2/ast_node_converter.cc:873-880 | the table element list converts as the first-failure map of ConvertTableElement |
| DdlProperties.TableOptionsAsMap | src/planv2/ast_node_converter.cc:885-895 | the table option list converts as the first-failure map of ConvertTableOption |
| DdlProperties.ColumnDefinitionShape | src/planv2/ast_node_converter.cc:936-966 | a column keeps its name, NOT NULL and known simple type; other schemas are kPlanError |
| DdlProperties.ParameterShape | src/planv2/ast_node_converter.cc:1186-1219 | a parameter needs a simple type and keeps its name and CONST flag; otherwise kSqlError |
| DdlProperties.ProcedureBodyShape | src/planv2/ast_node_converter.cc:1221-1231 | the body is exactly one BEGIN ... END block, body node i being the block's statement i converted |
| DdlProperties.ParametersAsMap | src/planv2/ast_node_converter.cc:910-915 | the parameter list converts as the first-failure map of ConvertParameter |
| DdlProperties.CreateProcedureShape | src/planv2/ast_node_converter.cc:905-923 | keeps the procedure name; parameter i is parameter i converted; the body is the converted block; a failing parameter list fails with its first failing parameter's status |
| Findings.JoinConditionAsWritten | src/planv2/ast_node_converter.cc:620-637 | the join case as written agrees with the corrected conversion whenever an ON clause is present |
| Findings.CommaJoinCounterexample | src/planv2/ast_node_converter.cc:636 | `FROM t1, t2` dereferences a null ON clause as written; the corrected conversion is kSqlError |
| Findings.CrossJoinCounterexample | src/planv2/ast_node_converter.cc:636 | `t1 CROSS JOIN t2` reaches the same dereference |
| Findings.JoinAsWrittenAgrees | src/planv2/ast_node_converter.cc:620-672 | exactly the joins that reach the ON clause without one dereference null; otherwise the two agree |
| Findings.DistributionElementAsWritten | src/planv2/ast_node_converter.cc:1157-1179 | the element as written agrees with the corrected one whenever the follower list is an array |
| Findings.DistributionCounterexample | src/planv2/ast_node_converter.cc:1169-1170 | `('leader', 'follower')` dereferences a null follower list as written; the corrected conversion is kPlanError |
| Findings.DistributionAsWrittenAgrees | src/planv2/ast_node_converter.cc:1157-1179 | exactly the pairs whose second field is not an array dereference null; otherwise the two agree |
| PlanContext.Replaced | src/vm/physical_plan_context.h:104-112 | the child list has the same length, new_child at idx, and every other producer unchanged |
| PlanContext.Rebuilt | src/vm/physical_plan_context.h:87-101 | a rebuild or InitSchema failure is returned unchanged; success is FinishSchema(InitSchema(new op, ids)) with the input's limit count |
| PlanContext.ServedStable | src/vm/physical_plan_context.h:47-63 | an answered id stays valid while the id state grows |
| PlanContext.ExtendsTransitive | src/vm/physical_plan_context.h:133-143 | growth of the id state composes |
| PlanContext.PhysicalPlanContext.constructor | src/vm/physical_plan_context.h:133-143 | the counter starts at 1 and all maps are empty |
| PlanContext.PhysicalPlanContext.GetRequestColumnIDMapping | src/vm/physical_plan_context.h:56-58 | every request id maps to a source id, and no request id is a source id |
| PlanContext.PhysicalPlanContext.GetNewColumnID | src/vm/physical_plan_context.h:60-63 | returns the counter, which no column holds yet, and advances it; nothing else changes |
| PlanContext.PhysicalPlanContext.GetSourceID | src/vm/physical_plan_context.h:47-51 | a known column keeps its id; a new one gets a fresh id recorded both ways |
| PlanContext.PhysicalPlanContext.GetRequestSourceID | src/vm/physical_plan_context.h:52-54 | a request column gets its own fresh id, bridged to the source id of the same table column |
| PlanContext.PhysicalPlanContext.SourceIdsUnique | src/vm/physical_plan_context.h:133-143 | two table columns never share an id |
| PlanContext.PhysicalPlanContext.RequestIdsUnique | src/vm/physical_plan_context.h:133-143 | two request columns never share an id, and no request id is a table column's id |
| PlanContext.PhysicalPlanContext.ServeIdRequest | src/vm/physical_plan_context.h:47-63 | an id request of InitSchema is answered by GetSourceID, GetRequestSourceID or GetNewColumnID; the answer is the column's id or a fresh id no column holds; the state only grows |
| PlanContext.PhysicalPlanContext.ServeIdRequests | src/vm/physical_plan_context.h:47-63 | answers InitSchema's id requests in order; fresh ids are increasing, so never shared |
| PlanContext.PhysicalPlanContext.CreateOp | src/vm/physical_plan_context.h:74-85 | keeps Valid; InitSchema's ids come from the context, which only grows; a failing InitSchema registers nothing and returns its status; otherwise the finished op is registered once |
| PlanContext.PhysicalPlanContext.WithNewChildren | src/vm/physical_plan_context.h:87-101 | keeps Valid and yields Rebuilt over the ids InitSchema drew; a failing rebuild leaves the context unchanged; nothing is registered |
| PlanContext.PhysicalPlanContext.WithNewChild | src/vm/physical_plan_context.h:103-114 | the child loop yields Rebuilt over Replaced(producers, idx, new_child). The ids are the context's answers to the rebuilt operator's requests, a failing rebuild leaves the ids unchanged, and the context only grows |

The converter methods are each proved equal to the specification function of the
same name. The property lemmas are proved about those functions, so they hold
for the methods too.

The code never reads a SELECT's own DISTINCT flag: `is_distinct` is fixed to
false (src/planv2/ast_node_converter.cc:783), so `SELECT DISTINCT` converts to a
non-distinct node. The syntax keeps the flag, and SelectDefaults states that the
result is non-distinct whatever it says.

The binary case never reads the parser's NOT flag either
(src/planv2/ast_node_converter.cc:79-149; BETWEEN reads its own at :217). So
`c NOT LIKE 'a%'` converts to the same LIKE node as `c LIKE 'a%'`, and the
negation is dropped. The syntax keeps the flag. BinaryCase and NotLikeAsLike
state that the result does not depend on it.

The code and the comments disagree in one place. The comment in the `ttl` case
(src/planv2/ast_node_converter.cc:1051-1054) lists day, hour and minute as the
interval units, but the code also accepts seconds. The model follows the code.

## Left out

- Error messages, LOG output and the status's message text are not modelled. Only the status code is.
- Floating-point literals: the numeric parse is not modelled. A float or double constant keeps its text, and whether the f suffix is stripped follows the code.
- Identifier quoting in ToIdentifierPathString is not modelled. A path string is the names joined with dots.
- string_to_bigint, string_to_bool and node::StringToDataType are runtime code and are not part of this model. The stand-ins in `literals.dfy` accept a sign and decimal digits within int64, "true"/"false" in any case, and a fixed list of type names.
- Null guards on children that the parser always builds are not modelled: the syntax types cannot express those nulls. Default branches that the node kinds make unreachable are left out the same way.
- The null-operand check in the AND/OR loops is not modelled, because a converted operand is never a null node here. An empty operand list stands for that check.
- GetAsOrDie, GetAsOrNull and dynamic_cast are modelled by the datatype's constructor tests.
- NodeManager allocation, node identity and aliasing are left out. Nodes are values, and an in-place update (SetOver, SetName, SetLimit, SetOrder, AddKey) is a rebuilt value.
- An interval literal with an empty image is not modelled. IntervalUnit treats it as an unknown unit.
- IndexVersionNode without a count is modelled as `None`. The node's internal default count is not part of this model.
- The int64 values of partitionnum and replicanum are kept as they are. The node constructors' parameter widths are not part of this model.
- PlanContext.PhysicalPlanContext.GetSourceID: does not model the initialisation from the catalog, because physical_plan_context.cc and InitializeSourceIdMappings are not part of this model. Ids are handed out per column on first request, and the unknown-table and unknown-column errors are not modelled.
- PlanContext.PhysicalPlanContext.GetRequestSourceID: the same restriction as GetSourceID.
- InitFnDef, the UDF library, the catalog, node_manager(), library(), catalog(), legacy_udf_dict_, codegen_func_id_counter_ and enable_expr_opt_ are not modelled. They are accessors or codegen state outside the id bookkeeping.
- Physical operators are values. Only their kind, producers and limit count are modelled. InitSchema, FinishSchema and WithNewChildren are parameters.
- PlanContext.PhysicalPlanContext.CreateOp: InitSchema's use of the context is modelled as a list of column-id requests, answered in order before InitSchema decides. An InitSchema that fails after drawing only some of its ids is modelled as drawing all of them first. Its other uses of the context (InitFnDef, the catalog, the node manager) are not modelled.
- PlanContext.PhysicalPlanContext.WithNewChildren: the same restriction as CreateOp. The operator's own WithNewChildren is a parameter, so its registration of the new node is not modelled.
- The template parameter Op and the final dynamic_cast<Op*> in WithNewChildren are not modelled.
- size_t wrap-around of the column-id counter is not modelled. Ids are unbounded naturals.
- ExprProperties.ColumnPathArity: the column-reference node keeps MakeColumnRefNode's arguments in the order of the call. The one-name call passes the only name first, and the two- and three-name calls pass the outermost qualifier first. NodeManager decides which argument is the column, the relation or the database, and NodeManager is not part of this model. So the table-qualified and db-qualified reading of a path is not stated.
- ExprProperties.DotStarArity: the same restriction as ColumnPathArity, for MakeAllNode's arguments. Which one is the table and which the database is not stated.
- The nested maps table → column → id are modelled as single maps keyed by (table, column) pairs. They hold the same information.

## Findings

| source | as written | input that shows it | evidently intended | confidence | as-written member | corrected member |
|---|---|---|---|---|---|---|
| src/planv2/ast_node_converter.cc:636 | the join's ON clause is read through `join->on_clause()` with no null check | `SELECT * FROM t1, t2` (a COMMA join; CROSS JOIN likewise) has no ON clause | refuse the join with kSqlError, as the join-type switch below does for COMMA and CROSS | high, not executed | Findings.JoinConditionAsWritten, Findings.CommaJoinCounterexample | ConvertSpec.ConvertTableExpressionNode, QueryProperties.JoinWithoutConditionRefused |
| src/planv2/ast_node_converter.cc:1169-1170 | the second field of a distribution element is cast with GetAsOrNull and then its elements are read with no null check | `distribution=[('leader', 'follower')]` | refuse the element with kPlanError, like the other malformed-element checks in the same loop | high, not executed | Findings.DistributionElementAsWritten, Findings.DistributionCounterexample | DdlSpec.ConvertDistributionElement, DdlProperties.DistributionElementWithoutFollowerList |
