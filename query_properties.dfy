/** What the query converter guarantees: the UNION fold, LIMIT, the attachment
    of ORDER BY and LIMIT, FROM-clause items, windows and frames. */
module QueryProperties {
  import opened Wrappers
  import opened Syntax
  import opened Ast
  import opened Literals
  import opened ConvertSpec
  import ExprProperties

  // UNION

  /** Reads a left-leaning chain of `n` union nodes, each flagged `isAll`, back
      into its inputs. */
  function Ununion(n: nat, isAll: bool, q: QueryNode): Option<seq<QueryNode>>
    decreases n
  {
    if n == 0 then Some([q])
    else
      match q
      case UnionQueryNode(l, r, all) =>
        if all != isAll then None
        else
          (match Ununion(n - 1, isAll, l)
           case Some(xs) => Some(xs + [r])
           case None => None)
      case _ => None
  }

  lemma {:induction false} UnionChainUnunion(first: QueryNode, rest: seq<QueryNode>, isAll: bool)
    ensures Ununion(|rest|, isAll, UnionChain(first, rest, isAll)) == Some([first] + rest)
    decreases |rest|
  {
    if rest != [] {
      var init, last := rest[..|rest| - 1], rest[|rest| - 1];
      UnionChainUnunion(first, init, isAll);
      assert UnionChain(first, rest, isAll) == UnionQueryNode(UnionChain(first, init, isAll), last, isAll);
      assert Ununion(|rest|, isAll, UnionChain(first, rest, isAll)) == Some(([first] + init) + [last]);
      assert [first] + rest == ([first] + init) + [last];
    } else {
      assert [first] + rest == [first];
    }
  }

  lemma {:induction false} QueryExprsPointwise(qs: seq<QueryExpr>)
    ensures ConvertQueryExprs(qs).Ok? <==> forall i | 0 <= i < |qs| :: ConvertQueryExpr(qs[i]).Ok?
    ensures ConvertQueryExprs(qs).Ok? ==>
      forall i | 0 <= i < |qs| :: ConvertQueryExpr(qs[i]) == Ok(ConvertQueryExprs(qs).value[i])
  {
    if |qs| > 0 {
      QueryExprsPointwise(qs[1..]);
      assert forall i | 1 <= i < |qs| :: qs[1..][i - 1] == qs[i];
    }
  }

  /** A UNION of N inputs is a left-associative chain of exactly N-1 union nodes,
      each UNION ALL exactly when the operation is not DISTINCT, over the converted
      inputs in order. Fewer than two inputs, or EXCEPT / INTERSECT, is a kSqlError. */
  lemma UnionShape(opType: SetOpType, distinct: bool, inputs: seq<QueryExpr>)
    ensures opType != Union ==> ConvertQueryExpr(SetOperation(opType, distinct, inputs)) == Err(SqlError)
    ensures |inputs| < 2 ==> ConvertQueryExpr(SetOperation(opType, distinct, inputs)) == Err(SqlError)
    ensures ConvertQueryExpr(SetOperation(opType, distinct, inputs)).Ok? <==>
      opType == Union && |inputs| >= 2 && forall i | 0 <= i < |inputs| :: ConvertQueryExpr(inputs[i]).Ok?
    ensures ConvertQueryExpr(SetOperation(opType, distinct, inputs)).Ok? ==>
      var xs := Ununion(|inputs| - 1, !distinct, ConvertQueryExpr(SetOperation(opType, distinct, inputs)).value);
      xs.Some? && |xs.value| == |inputs|
      && forall i | 0 <= i < |inputs| :: ConvertQueryExpr(inputs[i]) == Ok(xs.value[i])
  {
    QueryExprsPointwise(inputs);
    if opType == Union && |inputs| >= 2 && ConvertQueryExprs(inputs).Ok? {
      var nodes := ConvertQueryExprs(inputs).value;
      UnionChainUnunion(nodes[0], nodes[1..], !distinct);
      assert [nodes[0]] + nodes[1..] == nodes;
    }
  }

  // Lists converted element by element

  lemma {:induction false} SelectColumnsAsMap(cs: seq<SelectColumn>)
    ensures ConvertSelectColumns(cs) == MapResult(ConvertSelectColumn, cs)
  {
    if |cs| > 0 {
      SelectColumnsAsMap(cs[1..]);
    }
  }

  lemma {:induction false} TableExprsAsMap(ts: seq<TableExpr>)
    ensures ConvertTableExprs(ts) == MapResult(ConvertTableExpressionNode, ts)
  {
    if |ts| > 0 {
      TableExprsAsMap(ts[1..]);
    }
  }

  lemma {:induction false} WindowDefinitionsAsMap(wds: seq<WindowDefinition>)
    ensures ConvertWindowDefinitions(wds) == MapResult(ConvertWindowDefinition, wds)
  {
    if |wds| > 0 {
      WindowDefinitionsAsMap(wds[1..]);
    }
  }

  lemma {:induction false} StmtsAsMap(ss: seq<Statement>)
    ensures ConvertStmts(ss) == MapResult(ConvertStmt, ss)
  {
    if |ss| > 0 {
      StmtsAsMap(ss[1..]);
    }
  }

  /** A SELECT is never DISTINCT, whatever its own DISTINCT flag says, and
      carries no ORDER BY or LIMIT of its own. Target i is column i's expression
      with its alias or ""; the FROM clause gives its one table reference; each
      WINDOW definition and GROUP BY item is converted at its own position. */
  lemma SelectDefaults(qe: QueryExpr)
    requires qe.Select?
    ensures ConvertQueryExpr(qe).Ok? ==>
      var n, cols := ConvertQueryExpr(qe).value, qe.selectList.columns;
      n.SelectQueryNode? && !n.isDistinct && n.order.None? && n.limit.None?
      && |n.selectList| == |cols|
      && (forall i | 0 <= i < |cols| ::
            ConvertExprNode(cols[i].expression).Ok?
            && n.selectList[i] == ResTargetNode(ConvertExprNode(cols[i].expression).value, AliasName(cols[i].alias)))
      && (qe.fromClause.Some? ==> ConvertTableExpressionNode(qe.fromClause.value.tableExpression).Ok?)
      && n.tableRefs == (if qe.fromClause.Some?
                         then Some([ConvertTableExpressionNode(qe.fromClause.value.tableExpression).value])
                         else None)
      && n.where == ConvertOptExpr(qe.whereClause).value
      && n.having == ConvertOptExpr(qe.having).value
      && (n.groupBy.Some? <==> qe.groupBy.Some?)
      && (n.groupBy.Some? ==>
            |n.groupBy.value| == |qe.groupBy.value.groupingItems|
            && forall i | 0 <= i < |n.groupBy.value| ::
                 ConvertExprNode(qe.groupBy.value.groupingItems[i]) == Ok(n.groupBy.value[i]))
      && (n.windows.Some? <==> qe.windowClause.Some?)
      && (n.windows.Some? ==>
            |n.windows.value| == |qe.windowClause.value.windows|
            && forall i | 0 <= i < |n.windows.value| ::
                 ConvertWindowDefinition(qe.windowClause.value.windows[i]) == Ok(n.windows.value[i]))
  {
    var cols := qe.selectList.columns;
    SelectColumnsAsMap(cols);
    MapPointwise(ConvertSelectColumn, cols);
    if qe.groupBy.Some? {
      ExprProperties.ExprsPointwise(qe.groupBy.value.groupingItems);
    }
    if qe.windowClause.Some? {
      WindowDefinitionsAsMap(qe.windowClause.value.windows);
      MapPointwise(ConvertWindowDefinition, qe.windowClause.value.windows);
    }
  }

  // LIMIT

  /** LIMIT: OFFSET is refused; otherwise the limit must convert to a constant of
      integer type, whose value is the count. */
  lemma LimitRules(lo: LimitOffset)
    ensures lo.offset.Some? ==> ConvertLimitOffsetNode(lo) == Err(SqlError)
    ensures ConvertLimitOffsetNode(lo).Ok? <==>
      lo.offset.None? && lo.limit.Some? && ConvertExprNode(lo.limit.value).Ok?
      && ConvertExprNode(lo.limit.value).value.ConstNode?
      && IsIntegerType(TypeOf(ConvertExprNode(lo.limit.value).value.value))
    ensures ConvertLimitOffsetNode(lo).Ok? ==>
      ConvertLimitOffsetNode(lo).value.limitCount == AsInt64(ConvertExprNode(lo.limit.value).value.value)
    ensures ConvertLimitOffsetNode(lo).Err? && lo.limit.Some? && ConvertExprNode(lo.limit.value).Ok? ==>
      ConvertLimitOffsetNode(lo) == Err(SqlError)
  {
  }

  /** `LIMIT n` for a decimal n in int64 range is a limit of n. */
  lemma DecimalLimit(n: nat)
    requires n <= Int64Max
    ensures ConvertLimitOffsetNode(LimitOffset(Some(IntLiteral(DecimalString(n))), None)) == Ok(LimitNode(n))
  {
    ExprProperties.DecimalIntLiteral(n);
  }

  /** A string or boolean limit is refused with kSqlError. */
  lemma NonIntegerLimit(v: string, image: string)
    ensures ConvertLimitOffsetNode(LimitOffset(Some(StringLiteral(v)), None)) == Err(SqlError)
    ensures ConvertLimitOffsetNode(LimitOffset(Some(BooleanLiteral(image)), None)) == Err(SqlError)
    ensures ConvertLimitOffsetNode(LimitOffset(Some(Identifier(v)), None)) == Err(SqlError)
  {
  }

  // ORDER BY / LIMIT attachment

  /** ConvertQueryNode attaches ORDER BY and LIMIT to a SELECT and drops them on a
      UNION; their errors are reported either way, before the query expression's. */
  lemma OrderLimitOnlyForSelect(q: Query)
    ensures ConvertOptOrderBy(q.orderBy).Err? ==> ConvertQueryNode(q) == Err(ConvertOptOrderBy(q.orderBy).code)
    ensures ConvertOptOrderBy(q.orderBy).Ok? && ConvertOptLimit(q.limitOffset).Err? ==>
      ConvertQueryNode(q) == Err(ConvertOptLimit(q.limitOffset).code)
    ensures ConvertQueryNode(q).Ok? ==>
      ConvertOptOrderBy(q.orderBy).Ok? && ConvertOptLimit(q.limitOffset).Ok? && ConvertQueryExpr(q.queryExpr).Ok?
    ensures ConvertQueryNode(q).Ok? && ConvertQueryExpr(q.queryExpr).value.SelectQueryNode? ==>
      var n, e := ConvertQueryNode(q).value, ConvertQueryExpr(q.queryExpr).value;
      n.SelectQueryNode?
      && n.order == ConvertOptOrderBy(q.orderBy).value && n.limit == ConvertOptLimit(q.limitOffset).value
      && n.isDistinct == e.isDistinct && n.selectList == e.selectList && n.tableRefs == e.tableRefs
      && n.where == e.where && n.groupBy == e.groupBy && n.having == e.having && n.windows == e.windows
    ensures ConvertQueryNode(q).Ok? && !ConvertQueryExpr(q.queryExpr).value.SelectQueryNode? ==>
      ConvertQueryNode(q).value == ConvertQueryExpr(q.queryExpr).value
  {
  }

  // ORDER BY

  lemma {:induction false} OrderingItemsPointwise(items: seq<OrderingExpression>)
    ensures ConvertOrderingItems(items).Ok? <==> forall i | 0 <= i < |items| :: ConvertExprNode(items[i].expression).Ok?
    ensures ConvertOrderingItems(items).Ok? ==>
      forall i | 0 <= i < |items| :: ConvertExprNode(items[i].expression) == Ok(ConvertOrderingItems(items).value[i])
  {
    if |items| > 0 {
      OrderingItemsPointwise(items[1..]);
      assert forall i | 1 <= i < |items| :: items[1..][i - 1] == items[i];
    }
  }

  /** ORDER BY: one expression and one ascending flag per item, in order; an
      item is ascending exactly when it is not DESC. */
  lemma OrderByShape(ob: OrderBy)
    ensures ConvertOrderBy(ob).Ok? ==>
      var n, items := ConvertOrderBy(ob).value, ob.orderingExpressions;
      |n.orderExpressions| == |items| && |n.isAsc| == |items|
      && forall i | 0 <= i < |items| ::
           (n.isAsc[i] <==> !items[i].descending) && ConvertExprNode(items[i].expression) == Ok(n.orderExpressions[i])
  {
    OrderingItemsPointwise(ob.orderingExpressions);
  }

  // Frames

  /** The boundary table loses nothing: the result determines the boundary,
      and for an offset boundary also its openness. */
  lemma BoundTypeInjective(b1: BoundaryType, open1: bool, b2: BoundaryType, open2: bool)
    requires BoundTypeOf(b1, open1) == BoundTypeOf(b2, open2)
    ensures b1 == b2
    ensures (b1 == OffsetPreceding || b1 == OffsetFollowing) ==> open1 == open2
  {
  }

  /** Openness matters only for offset boundaries. */
  lemma BoundTypeOpenness(b: BoundaryType)
    ensures (b != OffsetPreceding && b != OffsetFollowing) ==> BoundTypeOf(b, true) == BoundTypeOf(b, false)
    ensures BoundTypeOf(b, true) in {Current, OpenPreceding, PrecedingUnbound, OpenFollowing, FollowingUnbound}
    ensures BoundTypeOf(b, false) in {Current, Preceding, PrecedingUnbound, Following, FollowingUnbound}
  {
  }

  /** An expression subquery is its converted query, or the query's status. */
  lemma ExprSubqueryShape(q: Query)
    ensures ConvertExprNode(ExpressionSubquery(q)).Ok? <==> ConvertQueryNode(q).Ok?
    ensures ConvertQueryNode(q).Ok? ==>
      ConvertExprNode(ExpressionSubquery(q)) == Ok(QueryExprNode(ConvertQueryNode(q).value))
    ensures ConvertQueryNode(q).Err? ==> ConvertExprNode(ExpressionSubquery(q)) == Err(ConvertQueryNode(q).code)
  {
  }

  /** A subquery in FROM is its converted query under its alias ("" when it has
      none), or the query's status. */
  lemma TableSubqueryShape(q: Query, alias: Option<string>)
    ensures ConvertTableExpressionNode(TableSubquery(q, alias)).Ok? <==> ConvertQueryNode(q).Ok?
    ensures ConvertQueryNode(q).Ok? ==>
      ConvertTableExpressionNode(TableSubquery(q, alias)) ==
        Ok(QueryRefNode(ConvertQueryNode(q).value, if alias.Some? then alias.value else ""))
    ensures ConvertQueryNode(q).Err? ==>
      ConvertTableExpressionNode(TableSubquery(q, alias)) == Err(ConvertQueryNode(q).code)
  {
  }

  /** A frame converts exactly when the start offset, the end offset and the
      maximum size convert, in that order; it keeps its unit, the bound types
      of its start and end and the converted offsets and size. */
  lemma FrameShape(f: WindowFrame)
    ensures ConvertFrameNode(f).Ok? <==>
      ConvertOptExpr(f.startExpr.expression).Ok?
      && (f.endExpr.Some? ==> ConvertOptExpr(f.endExpr.value.expression).Ok?)
      && ConvertOptExpr(f.maxSize).Ok?
    ensures ConvertFrameNode(f).Ok? ==>
      var n := ConvertFrameNode(f).value;
      n.frameType == FrameTypeOf(f.frameUnit)
      && n.extent.start == FrameBound(BoundTypeOf(f.startExpr.boundaryType, f.startExpr.isOpenBoundary),
                                      ConvertOptExpr(f.startExpr.expression).value)
      && (n.extent.end.Some? <==> f.endExpr.Some?)
      && (f.endExpr.Some? ==>
            n.extent.end.value == FrameBound(BoundTypeOf(f.endExpr.value.boundaryType, f.endExpr.value.isOpenBoundary),
                                             ConvertOptExpr(f.endExpr.value.expression).value))
      && n.frameMaxSize == ConvertOptExpr(f.maxSize).value
    ensures ConvertOptExpr(f.startExpr.expression).Err? ==>
      ConvertFrameNode(f) == Err(ConvertOptExpr(f.startExpr.expression).code)
    ensures ConvertOptExpr(f.startExpr.expression).Ok? && f.endExpr.Some?
            && ConvertOptExpr(f.endExpr.value.expression).Err? ==>
      ConvertFrameNode(f) == Err(ConvertOptExpr(f.endExpr.value.expression).code)
  {
    var start := ConvertFrameBound(f.startExpr);
    if start.Ok? {
      assert start.value.offset == ConvertOptExpr(f.startExpr.expression).value;
      if f.endExpr.Some? {
        var end := ConvertFrameBound(f.endExpr.value);
        assert ConvertOptFrameBound(f.endExpr).Ok? <==> end.Ok?;
      }
    }
  }

  // Windows

  /** A named window takes the name of its definition; an unnamed one keeps the
      base window name of its specification. */
  lemma WindowNamePrecedence(wd: WindowDefinition)
    ensures ConvertWindowDefinition(wd).Ok? <==> ConvertWindowSpecification(wd.windowSpec).Ok?
    ensures ConvertWindowDefinition(wd).Ok? ==>
      ConvertWindowDefinition(wd).value.name == (if wd.name.Some? then wd.name else wd.windowSpec.baseWindowName)
      && ConvertWindowDefinition(wd).value.(name := None) == ConvertWindowSpecification(wd.windowSpec).value.(name := None)
  {
  }

  /** A window specification keeps its base name and its two flags, and
      converts each clause it has: the PARTITION BY expressions and the ORDER BY
      items at their own positions (an empty PARTITION BY gives none), the frame,
      and one table reference per UNION table, in order. */
  lemma WindowSpecShape(ws: WindowSpec)
    ensures ConvertWindowSpecification(ws).Ok? ==>
      var w := ConvertWindowSpecification(ws).value;
      w.name == ws.baseWindowName
      && w.excludeCurrentTime == ws.excludeCurrentTime && w.instanceNotInWindow == ws.instanceNotInWindow
      && (w.partitions.Some? <==> ws.partitionBy.Some? && |ws.partitionBy.value.partitioningExpressions| > 0)
      && (w.partitions.Some? ==>
            |w.partitions.value| == |ws.partitionBy.value.partitioningExpressions|
            && forall i | 0 <= i < |w.partitions.value| ::
                 ConvertExprNode(ws.partitionBy.value.partitioningExpressions[i]) == Ok(w.partitions.value[i]))
      && (w.orders.Some? <==> ws.orderBy.Some?)
      && (w.orders.Some? ==>
            var items := ws.orderBy.value.orderingExpressions;
            |w.orders.value.orderExpressions| == |items| && |w.orders.value.isAsc| == |items|
            && forall i | 0 <= i < |items| ::
                 (w.orders.value.isAsc[i] <==> !items[i].descending)
                 && ConvertExprNode(items[i].expression) == Ok(w.orders.value.orderExpressions[i]))
      && (ws.windowFrame.Some? ==> ConvertFrameNode(ws.windowFrame.value).Ok?)
      && w.frame == (if ws.windowFrame.Some? then Some(ConvertFrameNode(ws.windowFrame.value).value) else None)
      && (w.unionTables.Some? <==> ws.unionTables.Some?)
      && (w.unionTables.Some? ==>
            |w.unionTables.value| == |ws.unionTables.value.tableReferences|
            && forall i | 0 <= i < |w.unionTables.value| ::
                 ConvertTableExpressionNode(ws.unionTables.value.tableReferences[i]) == Ok(w.unionTables.value[i]))
  {
    if ws.partitionBy.Some? && ConvertWindowSpecification(ws).Ok? {
      var es := ws.partitionBy.value.partitioningExpressions;
      ExprProperties.ExprsPointwise(es);
      assert ConvertWindowSpecification(ws).value.partitions == ConvertExprNodeList(es).value;
      if |es| > 0 {
        assert ConvertExprNodeList(es).value == Some(ConvertExprs(es).value);
      }
    }
    if ws.orderBy.Some? {
      OrderByShape(ws.orderBy.value);
    }
    if ws.unionTables.Some? {
      TableExprsAsMap(ws.unionTables.value.tableReferences);
      MapPointwise(ConvertTableExpressionNode, ws.unionTables.value.tableReferences);
    }
  }

  // FROM clause

  /** A table path keeps its last name (the table) and its alias; more than two
      names, or any of PIVOT, UNPIVOT, FOR SYSTEM_TIME, WITH OFFSET, TABLESAMPLE or a
      hint, is a kSqlError. */
  lemma TablePathShape(t: TableExpr)
    requires t.TablePathExpression?
    ensures ConvertTableExpressionNode(t).Ok? <==>
      !t.hasPivot && !t.hasUnpivot && !t.hasForSystemTime && !t.hasWithOffset && !t.hasSample && !t.hasHint
      && |t.pathExpr| <= 2
    ensures ConvertTableExpressionNode(t).Ok? ==>
      ConvertTableExpressionNode(t).value == TableNode(t.pathExpr[|t.pathExpr| - 1], AliasName(t.alias))
    ensures ConvertTableExpressionNode(t).Err? ==> ConvertTableExpressionNode(t).code == SqlError
  {
  }

  /** A LAST JOIN becomes a LastJoinNode and every other join a JoinNode whose kind
      is never JoinLast; COMMA, CROSS and the default join type are refused, as are
      USING, NATURAL, hints and a missing ON clause. */
  lemma JoinKinds(t: TableExpr)
    requires t.Join?
    ensures t.hasHint || t.joinHint != NoJoinHint || t.hasUsing || t.natural ==> ConvertTableExpressionNode(t) == Err(SqlError)
    ensures t.joinType in {DefaultJoinType, Comma, Cross} ==> ConvertTableExpressionNode(t).Err?
    ensures ConvertTableExpressionNode(t).Ok? ==>
      var n := ConvertTableExpressionNode(t).value;
      t.onClause.Some?
      && (t.joinType == Last <==> n.LastJoinNode?)
      && (n.JoinNode? ==> n.joinType != JoinLast && Ok(n.joinType) == JoinKindOf(t.joinType))
      && (n.JoinNode? || n.LastJoinNode?)
      && (n.LastJoinNode? ==> n.orderBy == ConvertOptOrderBy(t.joinOrderBy).value)
      && n.condition == ConvertExprNode(t.onClause.value).value
      && n.left == ConvertTableExpressionNode(t.lhs).value
      && n.right == ConvertTableExpressionNode(t.rhs).value
  {
  }

  /** The intended behaviour of a join without an ON clause: a kSqlError, once
      both sides and the join's ORDER BY have converted. */
  lemma JoinWithoutConditionRefused(t: TableExpr)
    requires t.Join? && t.onClause.None?
    ensures ConvertTableExpressionNode(t).Err?
    ensures (!(t.hasHint || t.joinHint != NoJoinHint || t.hasUsing || t.natural)
             && ConvertTableExpressionNode(t.lhs).Ok? && ConvertTableExpressionNode(t.rhs).Ok?
             && ConvertOptOrderBy(t.joinOrderBy).Ok?)
      ==> ConvertTableExpressionNode(t) == Err(SqlError)
  {
  }

  /** A FROM clause gives a list of exactly one table reference. */
  lemma FromClauseSingle(f: FromClause)
    ensures ConvertFromClause(Some(f)).Ok? <==> ConvertTableExpressionNode(f.tableExpression).Ok?
    ensures ConvertFromClause(Some(f)).Ok? ==>
      ConvertFromClause(Some(f)).value == Some([ConvertTableExpressionNode(f.tableExpression).value])
  {
  }

  // Statements

  /** A query statement gives a query node, a BEGIN ... END block a node list
      holding each statement's node at its position, or the status of its first
      failing statement; any other statement is a kSqlError. */
  lemma StatementShapes(s: Statement)
    ensures s.OtherStatement? ==> ConvertStmt(s) == Err(SqlError)
    ensures ConvertStmt(s).Ok? && s.QueryStatement? ==> ConvertStmt(s).value == QueryStmt(ConvertQueryNode(s.query).value)
    ensures s.BeginEndBlock? ==>
      (ConvertStmt(s).Ok? <==> forall i | 0 <= i < |s.statementList| :: ConvertStmt(s.statementList[i]).Ok?)
    ensures ConvertStmt(s).Ok? && s.BeginEndBlock? ==>
      ConvertStmt(s).value.NodeList? && |ConvertStmt(s).value.items| == |s.statementList|
      && forall i | 0 <= i < |s.statementList| :: ConvertStmt(s.statementList[i]) == Ok(ConvertStmt(s).value.items[i])
    ensures ConvertStmt(s).Err? && s.BeginEndBlock? ==>
      exists i | 0 <= i < |s.statementList| ::
        (forall j | 0 <= j < i :: ConvertStmt(s.statementList[j]).Ok?)
        && ConvertStmt(s.statementList[i]) == Err(ConvertStmt(s).code)
  {
    if s.BeginEndBlock? {
      StmtsAsMap(s.statementList);
      MapPointwise(ConvertStmt, s.statementList);
      MapFirstFailure(ConvertStmt, s.statementList);
    }
  }
}
