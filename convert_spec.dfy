/** The meaning of the syntax-tree-to-AST conversion of queries and expressions,
    as total functions: each function gives the status and node that the C++
    function of the same name produces. The first failing child decides the
    result (CHECK_STATUS), so children are converted in the order the C++ code
    visits them. */
module ConvertSpec {
  import opened Wrappers
  import opened Syntax
  import opened Ast
  import opened Literals

  // Dispatch tables

  /** The binary-operator table of the AST_BINARY_EXPRESSION case. */
  function BinaryOperator(op: BinaryOp): Option<FnOperator> {
    match op
    case Eq => Some(OpEq)
    case Ne => Some(OpNeq)
    case Ne2 => Some(OpNeq)
    case Gt => Some(OpGt)
    case Lt => Some(OpLt)
    case Ge => Some(OpGe)
    case Le => Some(OpLe)
    case Plus => Some(OpAdd)
    case Minus => Some(OpMinus)
    case Multiply => Some(OpMulti)
    case Divide => Some(OpFDiv)
    case IDivide => Some(OpDiv)
    case Like => Some(OpLike)
    case Mod => Some(OpMod)
    case _ => None
  }

  /** The unary-operator table of the AST_UNARY_EXPRESSION case. */
  function UnaryOperator(op: UnaryOp): Option<FnOperator> {
    match op
    case UnaryMinus => Some(OpMinus)
    case Not => Some(OpNot)
    case UnaryPlus => Some(OpAdd)
    case _ => None
  }

  /** ConvertFrameBound's boundary table; openness is a separate flag. */
  function BoundTypeOf(boundary: BoundaryType, isOpen: bool): BoundType {
    match boundary
    case CurrentRow => Current
    case OffsetPreceding => if isOpen then OpenPreceding else Preceding
    case UnboundedPreceding => PrecedingUnbound
    case OffsetFollowing => if isOpen then OpenFollowing else Following
    case UnboundedFollowing => FollowingUnbound
  }

  /** ConvertFrameNode's frame-unit table. */
  function FrameTypeOf(unit: FrameUnit): FrameType {
    match unit
    case Rows => FrameRows
    case Range => FrameRange
    case RowsRange => FrameRowsRange
  }

  /** The join-type switch of the AST_JOIN case. */
  function JoinKindOf(joinType: JoinType): Result<JoinKind> {
    match joinType
    case Full => Ok(JoinFull)
    case Left => Ok(JoinLeft)
    case Right => Ok(JoinRight)
    case Last => Ok(JoinLast)
    case Inner => Ok(JoinInner)
    case _ => Err(SqlError)
  }

  function AliasName(alias: Option<string>): string {
    match alias
    case Some(a) => a
    case None => ""
  }

  /** The column-reference case: one, two or three names. */
  function ConvertColumnPath(names: Path): Result<ExprNode> {
    if |names| == 1 then Ok(ColumnRefNode(names[0], "", ""))
    else if |names| == 2 then Ok(ColumnRefNode(names[0], names[1], ""))
    else if |names| == 3 then Ok(ColumnRefNode(names[0], names[1], names[2]))
    else Err(SqlError)
  }

  /** ConvertDotStart: `t.*` and `db.t.*`. */
  function ConvertDotStar(target: Expr): Result<ExprNode> {
    match target
    case PathExpression(names) =>
      if |names| == 1 then Ok(AllNode(names[0], ""))
      else if |names| == 2 then Ok(AllNode(names[0], names[1]))
      else Err(SqlError)
    case _ => Err(SqlError)
  }

  /** The node the AND/OR loop builds: `first` combined with each of `rest`
      in turn, the accumulated node always on the left. */
  function Chain(op: FnOperator, first: ExprNode, rest: seq<ExprNode>): ExprNode
    decreases |rest|
  {
    if rest == [] then first
    else BinaryExprNode(op, Chain(op, first, rest[..|rest| - 1]), rest[|rest| - 1])
  }

  /** The node the UNION loop builds, each union flagged `isAll`. */
  function UnionChain(first: QueryNode, rest: seq<QueryNode>, isAll: bool): QueryNode
    decreases |rest|
  {
    if rest == [] then first
    else UnionQueryNode(UnionChain(first, rest[..|rest| - 1], isAll), rest[|rest| - 1], isAll)
  }

  /** ConvertOrderBy's ascending flags: the negated DESC flags. */
  function AscFlags(items: seq<OrderingExpression>): (r: seq<bool>)
    ensures |r| == |items|
  {
    seq(|items|, i requires 0 <= i < |items| => !items[i].descending)
  }

  /** ConstNode::GetAsInt64 on a constant of integer type. */
  function AsInt64(c: ConstValue): int
    requires IsIntegerType(TypeOf(c))
  {
    match c
    case IntConst(v) => v
    case BigIntConst(v) => v
    case UnitConst(n, _) => n
  }

  /** The SetLimit/SetOrder step of ConvertQueryNode: only a SELECT receives them. */
  function AttachOrderLimit(node: QueryNode, order: Option<OrderByNode>, limit: Option<LimitNode>): QueryNode {
    if node.SelectQueryNode? then node.(limit := limit).(order := order) else node
  }

  // Expressions

  function ConvertExprNode(e: Expr): Result<ExprNode>
    decreases e
  {
    match e
    case Star => Ok(AllNode("", ""))
    case DotStar(target) => ConvertDotStar(target)
    case Identifier(name) => Ok(ExprIdNode(name))
    case ExpressionSubquery(q) =>
      var sub :- ConvertQueryNode(q);
      Ok(QueryExprNode(sub))
    case PathExpression(names) => ConvertColumnPath(names)
    // The parser's NOT flag (`NOT LIKE`) is never read.
    case BinaryExpression(op, lhs, rhs, _) =>
      var l :- ConvertExprNode(lhs);
      var r :- ConvertExprNode(rhs);
      (match BinaryOperator(op)
       case Some(fn) => Ok(BinaryExprNode(fn, l, r))
       case None => Err(SqlError))
    case UnaryExpression(op, operand) =>
      var o :- ConvertExprNode(operand);
      (match UnaryOperator(op)
       case Some(fn) => Ok(UnaryExprNode(fn, o))
       case None => Err(SqlError))
    case AndExpr(conjuncts) => ConvertJunction(OpAnd, conjuncts)
    case OrExpr(disjuncts) => ConvertJunction(OpOr, disjuncts)
    case BetweenExpression(lhs, low, high, isNot) =>
      var x :- ConvertExprNode(lhs);
      var lo :- ConvertExprNode(low);
      var hi :- ConvertExprNode(high);
      Ok(BetweenExprNode(x, lo, hi, isNot))
    case FunctionCall(call) => ConvertCall(call)
    case AnalyticFunctionCall(call, windowSpec) =>
      var fn :- ConvertCall(call);
      var over :- ConvertWindowSpecification(windowSpec);
      Ok(fn.(over := Some(over)))
    case IntLiteral(image) =>
      var c :- ConvertIntLiteral(image);
      Ok(ConstNode(c))
    case StringLiteral(v) => Ok(ConstNode(StringConst(v)))
    case BooleanLiteral(image) =>
      var c :- ConvertBoolLiteral(image);
      Ok(ConstNode(c))
    case FloatLiteral(image) => Ok(ConstNode(ConvertFloatLiteral(image)))
    case IntervalLiteral(image) =>
      var c :- ConvertIntervalLiteral(image);
      Ok(ConstNode(c))
    case NullLiteral => Ok(ConstNode(NullConst))
    case UnsupportedLiteral(_) => Err(SqlError)
    case StructConstructorWithParens(_) => Err(SqlError)
    case ArrayConstructor(_) => Err(SqlError)
    case OtherExpression(_) => Err(SqlError)
  }

  /** The AND and OR cases: every operand converted, then chained to the left. */
  function ConvertJunction(op: FnOperator, operands: seq<Expr>): Result<ExprNode>
    decreases operands, 1
  {
    if |operands| == 0 then Err(SqlError)
    else
      var nodes :- ConvertExprs(operands);
      Ok(Chain(op, nodes[0], nodes[1..]))
  }

  /** Converting a list of expressions in order, stopping at the first failure. */
  function ConvertExprs(es: seq<Expr>): (r: Result<seq<ExprNode>>)
    decreases es, 0
    ensures r.Ok? ==> |r.value| == |es|
  {
    if |es| == 0 then Ok([])
    else
      var n :- ConvertExprNode(es[0]);
      var rest :- ConvertExprs(es[1..]);
      Ok([n] + rest)
  }

  /** ConvertExprNodeList: an empty list gives no list at all. */
  function ConvertExprNodeList(es: seq<Expr>): Result<Option<seq<ExprNode>>>
    decreases es, 1
  {
    if |es| == 0 then Ok(None)
    else
      var nodes :- ConvertExprs(es);
      Ok(Some(nodes))
  }

  /** The AST_FUNCTION_CALL case. */
  function ConvertCall(call: Call): Result<ExprNode>
    decreases call
  {
    if call.hasModifiers then Err(SqlError)
    else
      var args :- ConvertExprNodeList(call.arguments);
      Ok(CallExprNode(PathString(call.functionName), args, None))
  }

  function ConvertOptExpr(o: Option<Expr>): Result<Option<ExprNode>>
    decreases o
  {
    match o
    case None => Ok(None)
    case Some(e) =>
      var n :- ConvertExprNode(e);
      Ok(Some(n))
  }

  // Windows

  function ConvertOrderingItem(item: OrderingExpression): Result<ExprNode>
    decreases item
  {
    ConvertExprNode(item.expression)
  }

  function ConvertOrderingItems(items: seq<OrderingExpression>): (r: Result<seq<ExprNode>>)
    decreases items
    ensures r.Ok? ==> |r.value| == |items|
  {
    if |items| == 0 then Ok([])
    else
      var n :- ConvertOrderingItem(items[0]);
      var rest :- ConvertOrderingItems(items[1..]);
      Ok([n] + rest)
  }

  function ConvertOrderBy(ob: OrderBy): Result<OrderByNode>
    decreases ob
  {
    var exprs :- ConvertOrderingItems(ob.orderingExpressions);
    Ok(OrderByNode(exprs, AscFlags(ob.orderingExpressions)))
  }

  function ConvertOptOrderBy(o: Option<OrderBy>): Result<Option<OrderByNode>>
    decreases o
  {
    match o
    case None => Ok(None)
    case Some(ob) =>
      var n :- ConvertOrderBy(ob);
      Ok(Some(n))
  }

  function ConvertFrameBound(fe: WindowFrameExpr): Result<FrameBound>
    decreases fe
  {
    var offset :- ConvertOptExpr(fe.expression);
    Ok(FrameBound(BoundTypeOf(fe.boundaryType, fe.isOpenBoundary), offset))
  }

  function ConvertOptFrameBound(o: Option<WindowFrameExpr>): Result<Option<FrameBound>>
    decreases o
  {
    match o
    case None => Ok(None)
    case Some(fe) =>
      var b :- ConvertFrameBound(fe);
      Ok(Some(b))
  }

  function ConvertFrameNode(f: WindowFrame): Result<FrameNode>
    decreases f
  {
    var start :- ConvertFrameBound(f.startExpr);
    var end :- ConvertOptFrameBound(f.endExpr);
    var size :- ConvertOptExpr(f.maxSize);
    Ok(FrameNode(FrameTypeOf(f.frameUnit), FrameExtent(start, end), size))
  }

  function ConvertOptFrame(o: Option<WindowFrame>): Result<Option<FrameNode>>
    decreases o
  {
    match o
    case None => Ok(None)
    case Some(f) =>
      var n :- ConvertFrameNode(f);
      Ok(Some(n))
  }

  function ConvertPartitionBy(o: Option<PartitionBy>): Result<Option<seq<ExprNode>>>
    decreases o
  {
    match o
    case None => Ok(None)
    case Some(p) => ConvertExprNodeList(p.partitioningExpressions)
  }

  function ConvertUnionTables(o: Option<UnionTables>): Result<Option<seq<TableRefNode>>>
    decreases o
  {
    match o
    case None => Ok(None)
    case Some(u) =>
      var tables :- ConvertTableExprs(u.tableReferences);
      Ok(Some(tables))
  }

  function ConvertWindowSpecification(ws: WindowSpec): Result<WindowDefNode>
    decreases ws
  {
    var partitions :- ConvertPartitionBy(ws.partitionBy);
    var orders :- ConvertOptOrderBy(ws.orderBy);
    var frame :- ConvertOptFrame(ws.windowFrame);
    var unionTables :- ConvertUnionTables(ws.unionTables);
    Ok(WindowDefNode(ws.baseWindowName, unionTables, partitions, orders, frame,
                     ws.excludeCurrentTime, ws.instanceNotInWindow))
  }

  function ConvertWindowDefinition(wd: WindowDefinition): Result<WindowDefNode>
    decreases wd
  {
    var w :- ConvertWindowSpecification(wd.windowSpec);
    Ok(if wd.name.Some? then w.(name := wd.name) else w)
  }

  function ConvertWindowDefinitions(wds: seq<WindowDefinition>): (r: Result<seq<WindowDefNode>>)
    decreases wds
    ensures r.Ok? ==> |r.value| == |wds|
  {
    if |wds| == 0 then Ok([])
    else
      var w :- ConvertWindowDefinition(wds[0]);
      var rest :- ConvertWindowDefinitions(wds[1..]);
      Ok([w] + rest)
  }

  /** ConvertWindowClause. */
  function ConvertWindowClause(o: Option<WindowClause>): Result<Option<seq<WindowDefNode>>>
    decreases o
  {
    match o
    case None => Ok(None)
    case Some(wc) =>
      var ws :- ConvertWindowDefinitions(wc.windows);
      Ok(Some(ws))
  }

  // FROM clause

  function ConvertTableExpressionNode(t: TableExpr): Result<TableRefNode>
    decreases t
  {
    match t
    case TablePathExpression(path, alias, pivot, unpivot, systemTime, withOffset, sample, hint) =>
      if pivot || unpivot || systemTime || withOffset || sample || hint then Err(SqlError)
      else if |path| > 2 then Err(SqlError)
      else Ok(TableNode(path[|path| - 1], AliasName(alias)))
    case Join(lhs, rhs, joinType, joinHint, hint, using, natural, orderBy, onClause, alias) =>
      if hint || joinHint != NoJoinHint || using || natural then Err(SqlError)
      else
        var left :- ConvertTableExpressionNode(lhs);
        var right :- ConvertTableExpressionNode(rhs);
        var order :- ConvertOptOrderBy(orderBy);
        // A join without an ON clause is refused here; see Findings.JoinConditionAsWritten.
        if onClause.None? then Err(SqlError)
        else
          var condition :- ConvertExprNode(onClause.value);
          var kind :- JoinKindOf(joinType);
          if kind == JoinLast then Ok(LastJoinNode(left, right, order, condition, AliasName(alias)))
          else Ok(JoinNode(left, right, kind, condition, AliasName(alias)))
    case TableSubquery(subquery, alias) =>
      var sub :- ConvertQueryNode(subquery);
      Ok(QueryRefNode(sub, AliasName(alias)))
    case OtherTableExpression(_) => Err(PlanError)
  }

  function ConvertTableExprs(ts: seq<TableExpr>): (r: Result<seq<TableRefNode>>)
    decreases ts
    ensures r.Ok? ==> |r.value| == |ts|
  {
    if |ts| == 0 then Ok([])
    else
      var t :- ConvertTableExpressionNode(ts[0]);
      var rest :- ConvertTableExprs(ts[1..]);
      Ok([t] + rest)
  }

  // SELECT and query shapes

  function ConvertSelectColumn(c: SelectColumn): Result<ResTargetNode>
    decreases c
  {
    var x :- ConvertExprNode(c.expression);
    Ok(ResTargetNode(x, AliasName(c.alias)))
  }

  function ConvertSelectColumns(cs: seq<SelectColumn>): (r: Result<seq<ResTargetNode>>)
    decreases cs
    ensures r.Ok? ==> |r.value| == |cs|
  {
    if |cs| == 0 then Ok([])
    else
      var c :- ConvertSelectColumn(cs[0]);
      var rest :- ConvertSelectColumns(cs[1..]);
      Ok([c] + rest)
  }

  function ConvertSelectList(sl: SelectList): Result<seq<ResTargetNode>>
    decreases sl
  {
    ConvertSelectColumns(sl.columns)
  }

  /** The FROM clause: its single table expression, as a one-element list. */
  function ConvertFromClause(o: Option<FromClause>): Result<Option<seq<TableRefNode>>>
    decreases o
  {
    match o
    case None => Ok(None)
    case Some(f) =>
      var t :- ConvertTableExpressionNode(f.tableExpression);
      Ok(Some([t]))
  }

  /** ConvertGroupItems: a present GROUP BY always gives a list, even an empty one. */
  function ConvertGroupItems(o: Option<GroupBy>): Result<Option<seq<ExprNode>>>
    decreases o
  {
    match o
    case None => Ok(None)
    case Some(g) =>
      var items :- ConvertExprs(g.groupingItems);
      Ok(Some(items))
  }

  function ConvertLimitOffsetNode(lo: LimitOffset): Result<LimitNode>
    decreases lo
  {
    if lo.offset.Some? then Err(SqlError)
    else if lo.limit.None? then Err(SqlError)
    else
      var limit :- ConvertExprNode(lo.limit.value);
      if !limit.ConstNode? then Err(SqlError)
      else if IsIntegerType(TypeOf(limit.value)) then Ok(LimitNode(AsInt64(limit.value)))
      else Err(SqlError)
  }

  function ConvertOptLimit(o: Option<LimitOffset>): Result<Option<LimitNode>>
    decreases o
  {
    match o
    case None => Ok(None)
    case Some(lo) =>
      var l :- ConvertLimitOffsetNode(lo);
      Ok(Some(l))
  }

  /** ConvertQueryNode: ORDER BY and LIMIT are converted first, then the query
      expression; they are attached only if that expression is a SELECT. */
  function ConvertQueryNode(q: Query): Result<QueryNode>
    decreases q
  {
    var order :- ConvertOptOrderBy(q.orderBy);
    var limit :- ConvertOptLimit(q.limitOffset);
    var node :- ConvertQueryExpr(q.queryExpr);
    Ok(AttachOrderLimit(node, order, limit))
  }

  function ConvertQueryExpr(qe: QueryExpr): Result<QueryNode>
    decreases qe
  {
    match qe
    case Select(_, selectList, fromClause, whereClause, groupBy, having, windowClause) =>
      // The SELECT's own DISTINCT flag is never read: the node is always non-distinct.
      var columns :- ConvertSelectList(selectList);
      var tableRefs :- ConvertFromClause(fromClause);
      var where :- ConvertOptExpr(whereClause);
      var groups :- ConvertGroupItems(groupBy);
      var havingExpr :- ConvertOptExpr(having);
      var windows :- ConvertWindowClause(windowClause);
      Ok(SelectQueryNode(false, columns, tableRefs, where, groups, havingExpr, None, windows, None))
    case SetOperation(opType, distinct, inputs) =>
      if opType != Union then Err(SqlError)
      else if |inputs| < 2 then Err(SqlError)
      else
        var nodes :- ConvertQueryExprs(inputs);
        Ok(UnionChain(nodes[0], nodes[1..], !distinct))
    case OtherQueryExpression(_) => Err(PlanError)
  }

  function ConvertQueryExprs(qs: seq<QueryExpr>): (r: Result<seq<QueryNode>>)
    decreases qs
    ensures r.Ok? ==> |r.value| == |qs|
  {
    if |qs| == 0 then Ok([])
    else
      var n :- ConvertQueryExpr(qs[0]);
      var rest :- ConvertQueryExprs(qs[1..]);
      Ok([n] + rest)
  }

  // Statements

  function ConvertStmt(s: Statement): Result<SqlNode>
    decreases s
  {
    match s
    case QueryStatement(q) =>
      var n :- ConvertQueryNode(q);
      Ok(QueryStmt(n))
    case BeginEndBlock(statements) =>
      var ns :- ConvertStmts(statements);
      Ok(NodeList(ns))
    case OtherStatement(_) => Err(SqlError)
  }

  function ConvertStmts(ss: seq<Statement>): (r: Result<seq<SqlNode>>)
    decreases ss
    ensures r.Ok? ==> |r.value| == |ss|
  {
    if |ss| == 0 then Ok([])
    else
      var n :- ConvertStmt(ss[0]);
      var rest :- ConvertStmts(ss[1..]);
      Ok([n] + rest)
  }
}
