/** The converter as the C++ code runs it: one method per conversion function,
    the same loops and the same setters (SetOver, SetName, SetLimit, SetOrder
    become updates of the node value). Each method is proved to produce exactly
    what the ConvertSpec function of the same name defines. */
module Converter {
  import opened Wrappers
  import opened Syntax
  import opened Ast
  import opened Literals
  import S = ConvertSpec

  method ConvertExprNode(e: Expr) returns (r: Result<ExprNode>)
    decreases e
    ensures r == S.ConvertExprNode(e)
  {
    match e
    case Star =>
      r := Ok(AllNode("", ""));
    case DotStar(target) =>
      r := S.ConvertDotStar(target);
    case Identifier(name) =>
      r := Ok(ExprIdNode(name));
    case ExpressionSubquery(q) =>
      var sub :- ConvertQueryNode(q);
      r := Ok(QueryExprNode(sub));
    case PathExpression(names) =>
      r := S.ConvertColumnPath(names);
    case BinaryExpression(_, _, _, _) =>
      r := ConvertBinaryExpression(e);
    case UnaryExpression(_, _) =>
      r := ConvertUnaryExpression(e);
    case AndExpr(conjuncts) =>
      r := ConvertJunction(OpAnd, conjuncts);
    case OrExpr(disjuncts) =>
      r := ConvertJunction(OpOr, disjuncts);
    case BetweenExpression(_, _, _, _) =>
      r := ConvertBetweenExpression(e);
    case FunctionCall(call) =>
      r := ConvertCall(call);
    case AnalyticFunctionCall(call, windowSpec) =>
      var fn :- ConvertCall(call);
      var over :- ConvertWindowSpecification(windowSpec);
      r := Ok(fn.(over := Some(over)));
    case IntLiteral(image) =>
      var c :- ConvertIntLiteral(image);
      r := Ok(ConstNode(c));
    case StringLiteral(v) =>
      r := Ok(ConstNode(StringConst(v)));
    case BooleanLiteral(image) =>
      var c :- ConvertBoolLiteral(image);
      r := Ok(ConstNode(c));
    case FloatLiteral(image) =>
      r := Ok(ConstNode(ConvertFloatLiteral(image)));
    case IntervalLiteral(image) =>
      var c :- ConvertIntervalLiteral(image);
      r := Ok(ConstNode(c));
    case NullLiteral =>
      r := Ok(ConstNode(NullConst));
    case UnsupportedLiteral(_) =>
      r := Err(SqlError);
    case StructConstructorWithParens(_) =>
      r := Err(SqlError);
    case ArrayConstructor(_) =>
      r := Err(SqlError);
    case OtherExpression(_) =>
      r := Err(SqlError);
  }

  /** AST_BINARY_EXPRESSION: both operands, then the operator table. */
  method ConvertBinaryExpression(e: Expr) returns (r: Result<ExprNode>)
    requires e.BinaryExpression?
    decreases e, 0
    ensures r == S.ConvertExprNode(e)
  {
    var l :- ConvertExprNode(e.lhs);
    var rh :- ConvertExprNode(e.rhs);
    var fn := S.BinaryOperator(e.op);
    if fn.None? {
      return Err(SqlError);
    }
    r := Ok(BinaryExprNode(fn.value, l, rh));
  }

  /** AST_UNARY_EXPRESSION: the operand, then the operator table. */
  method ConvertUnaryExpression(e: Expr) returns (r: Result<ExprNode>)
    requires e.UnaryExpression?
    decreases e, 0
    ensures r == S.ConvertExprNode(e)
  {
    var o :- ConvertExprNode(e.operand);
    var fn := S.UnaryOperator(e.unaryOp);
    if fn.None? {
      return Err(SqlError);
    }
    r := Ok(UnaryExprNode(fn.value, o));
  }

  /** AST_BETWEEN_EXPRESSION: the value compared, then the two bounds. */
  method ConvertBetweenExpression(e: Expr) returns (r: Result<ExprNode>)
    requires e.BetweenExpression?
    decreases e, 0
    ensures r == S.ConvertExprNode(e)
  {
    var x :- ConvertExprNode(e.lhs);
    var lo :- ConvertExprNode(e.low);
    var hi :- ConvertExprNode(e.high);
    r := Ok(BetweenExprNode(x, lo, hi, e.isNot));
  }

  /** The AND/OR case: the first operand, then the loop over the others. */
  method ConvertJunction(op: FnOperator, operands: seq<Expr>) returns (r: Result<ExprNode>)
    decreases operands, 2
    ensures r == S.ConvertJunction(op, operands)
  {
    if |operands| == 0 {
      return Err(SqlError);
    }
    var first :- ConvertExprNode(operands[0]);
    r := FoldJunction(op, first, operands[1..]);
  }

  /** The AND/OR loop: each further operand folded in on the right of the node
      built so far. */
  method FoldJunction(op: FnOperator, first: ExprNode, rest: seq<Expr>) returns (r: Result<ExprNode>)
    decreases rest, 1
    ensures S.ConvertExprs(rest).Err? ==> r == Err(S.ConvertExprs(rest).code)
    ensures S.ConvertExprs(rest).Ok? ==> r == Ok(S.Chain(op, first, S.ConvertExprs(rest).value))
  {
    var lhs := first;
    ghost var nodes: seq<ExprNode> := [];
    var i := 0;
    while i < |rest|
      invariant 0 <= i <= |rest| && |nodes| == i
      invariant S.ConvertExprs(rest) == Prepend(nodes, S.ConvertExprs(rest[i..]))
      invariant lhs == S.Chain(op, first, nodes)
      decreases |rest| - i
    {
      assert rest[i..][1..] == rest[i + 1..];
      var rhs :- ConvertExprNode(rest[i]);
      PrependAppend(nodes, rhs, S.ConvertExprs(rest[i + 1..]));
      lhs := BinaryExprNode(op, lhs, rhs);
      assert (nodes + [rhs])[..i] == nodes;
      nodes := nodes + [rhs];
      i := i + 1;
    }
    assert rest[i..] == [];
    r := Ok(lhs);
  }

  /** ConvertExprNodeList, without its empty-list case. */
  method ConvertExprs(es: seq<Expr>) returns (r: Result<seq<ExprNode>>)
    decreases es, 0
    ensures r == S.ConvertExprs(es)
  {
    var list: seq<ExprNode> := [];
    var i := 0;
    while i < |es|
      invariant 0 <= i <= |es|
      invariant S.ConvertExprs(es) == Prepend(list, S.ConvertExprs(es[i..]))
      decreases |es| - i
    {
      assert es[i..][1..] == es[i + 1..];
      var n :- ConvertExprNode(es[i]);
      PrependAppend(list, n, S.ConvertExprs(es[i + 1..]));
      list := list + [n];
      i := i + 1;
    }
    assert es[i..] == [];
    r := Ok(list);
  }

  method ConvertExprNodeList(es: seq<Expr>) returns (r: Result<Option<seq<ExprNode>>>)
    decreases es, 1
    ensures r == S.ConvertExprNodeList(es)
  {
    if |es| == 0 {
      return Ok(None);
    }
    var list :- ConvertExprs(es);
    r := Ok(Some(list));
  }

  method ConvertCall(call: Call) returns (r: Result<ExprNode>)
    decreases call
    ensures r == S.ConvertCall(call)
  {
    if call.hasModifiers {
      return Err(SqlError);
    }
    var args :- ConvertExprNodeList(call.arguments);
    r := Ok(CallExprNode(PathString(call.functionName), args, None));
  }

  /** ConvertExprNode on a child that may be absent. */
  method ConvertOptExpr(o: Option<Expr>) returns (r: Result<Option<ExprNode>>)
    decreases o
    ensures r == S.ConvertOptExpr(o)
  {
    if o.None? {
      return Ok(None);
    }
    var n :- ConvertExprNode(o.value);
    r := Ok(Some(n));
  }

  method ConvertOrderBy(ob: OrderBy) returns (r: Result<OrderByNode>)
    decreases ob
    ensures r == S.ConvertOrderBy(ob)
  {
    var items := ob.orderingExpressions;
    var exprs: seq<ExprNode> := [];
    var isAsc: seq<bool> := [];
    var i := 0;
    while i < |items|
      invariant 0 <= i <= |items| && |isAsc| == i
      invariant S.ConvertOrderingItems(items) == Prepend(exprs, S.ConvertOrderingItems(items[i..]))
      invariant forall k | 0 <= k < i :: isAsc[k] == !items[k].descending
      decreases |items| - i
    {
      assert items[i..][1..] == items[i + 1..];
      var x :- ConvertExprNode(items[i].expression);
      PrependAppend(exprs, x, S.ConvertOrderingItems(items[i + 1..]));
      exprs := exprs + [x];
      isAsc := isAsc + [!items[i].descending];
      i := i + 1;
    }
    assert items[i..] == [];
    assert isAsc == S.AscFlags(items);
    r := Ok(OrderByNode(exprs, isAsc));
  }

  method ConvertOptOrderBy(o: Option<OrderBy>) returns (r: Result<Option<OrderByNode>>)
    decreases o
    ensures r == S.ConvertOptOrderBy(o)
  {
    if o.None? {
      return Ok(None);
    }
    var n :- ConvertOrderBy(o.value);
    r := Ok(Some(n));
  }

  method ConvertFrameBound(fe: WindowFrameExpr) returns (r: Result<FrameBound>)
    decreases fe
    ensures r == S.ConvertFrameBound(fe)
  {
    var boundType := S.BoundTypeOf(fe.boundaryType, fe.isOpenBoundary);
    var offset :- ConvertOptExpr(fe.expression);
    r := Ok(FrameBound(boundType, offset));
  }

  method ConvertFrameNode(f: WindowFrame) returns (r: Result<FrameNode>)
    decreases f
    ensures r == S.ConvertFrameNode(f)
  {
    var frameType := S.FrameTypeOf(f.frameUnit);
    var start :- ConvertFrameBound(f.startExpr);
    var end: Option<FrameBound> := None;
    if f.endExpr.Some? {
      var b :- ConvertFrameBound(f.endExpr.value);
      end := Some(b);
    }
    var size :- ConvertOptExpr(f.maxSize);
    r := Ok(FrameNode(frameType, FrameExtent(start, end), size));
  }

  method ConvertUnionTables(refs: seq<TableExpr>) returns (r: Result<seq<TableRefNode>>)
    decreases refs
    ensures r == S.ConvertTableExprs(refs)
  {
    var tables: seq<TableRefNode> := [];
    var i := 0;
    while i < |refs|
      invariant 0 <= i <= |refs|
      invariant S.ConvertTableExprs(refs) == Prepend(tables, S.ConvertTableExprs(refs[i..]))
      decreases |refs| - i
    {
      assert refs[i..][1..] == refs[i + 1..];
      var t :- ConvertTableExpressionNode(refs[i]);
      PrependAppend(tables, t, S.ConvertTableExprs(refs[i + 1..]));
      tables := tables + [t];
      i := i + 1;
    }
    assert refs[i..] == [];
    r := Ok(tables);
  }

  method ConvertWindowSpecification(ws: WindowSpec) returns (r: Result<WindowDefNode>)
    decreases ws
    ensures r == S.ConvertWindowSpecification(ws)
  {
    var partitions: Option<seq<ExprNode>> := None;
    if ws.partitionBy.Some? {
      partitions :- ConvertExprNodeList(ws.partitionBy.value.partitioningExpressions);
    }
    var orders: Option<OrderByNode> := None;
    if ws.orderBy.Some? {
      var o :- ConvertOrderBy(ws.orderBy.value);
      orders := Some(o);
    }
    var frame: Option<FrameNode> := None;
    if ws.windowFrame.Some? {
      var f :- ConvertFrameNode(ws.windowFrame.value);
      frame := Some(f);
    }
    var unionTables: Option<seq<TableRefNode>> := None;
    if ws.unionTables.Some? {
      var tables :- ConvertUnionTables(ws.unionTables.value.tableReferences);
      unionTables := Some(tables);
    }
    var w := WindowDefNode(None, unionTables, partitions, orders, frame,
                           ws.excludeCurrentTime, ws.instanceNotInWindow);
    if ws.baseWindowName.Some? {
      w := w.(name := ws.baseWindowName);
    }
    r := Ok(w);
  }

  method ConvertWindowDefinition(wd: WindowDefinition) returns (r: Result<WindowDefNode>)
    decreases wd
    ensures r == S.ConvertWindowDefinition(wd)
  {
    var w :- ConvertWindowSpecification(wd.windowSpec);
    if wd.name.Some? {
      w := w.(name := wd.name);
    }
    r := Ok(w);
  }

  method ConvertSelectList(sl: SelectList) returns (r: Result<seq<ResTargetNode>>)
    decreases sl
    ensures r == S.ConvertSelectList(sl)
  {
    var columns := sl.columns;
    var targets: seq<ResTargetNode> := [];
    var i := 0;
    while i < |columns|
      invariant 0 <= i <= |columns|
      invariant S.ConvertSelectColumns(columns) == Prepend(targets, S.ConvertSelectColumns(columns[i..]))
      decreases |columns| - i
    {
      assert columns[i..][1..] == columns[i + 1..];
      var x :- ConvertExprNode(columns[i].expression);
      PrependAppend(targets, ResTargetNode(x, S.AliasName(columns[i].alias)), S.ConvertSelectColumns(columns[i + 1..]));
      targets := targets + [ResTargetNode(x, S.AliasName(columns[i].alias))];
      i := i + 1;
    }
    assert columns[i..] == [];
    r := Ok(targets);
  }

  method ConvertTableExpressionNode(t: TableExpr) returns (r: Result<TableRefNode>)
    decreases t
    ensures r == S.ConvertTableExpressionNode(t)
  {
    match t
    case TablePathExpression(path, alias, pivot, unpivot, systemTime, withOffset, sample, hint) =>
      if pivot || unpivot || systemTime || withOffset || sample || hint {
        return Err(SqlError);
      }
      if |path| > 2 {
        return Err(SqlError);
      }
      r := Ok(TableNode(path[|path| - 1], S.AliasName(alias)));
    case Join(lhs, rhs, joinType, joinHint, hint, using, natural, orderBy, onClause, alias) =>
      if hint || joinHint != NoJoinHint || using || natural {
        return Err(SqlError);
      }
      var left :- ConvertTableExpressionNode(lhs);
      var right :- ConvertTableExpressionNode(rhs);
      var order :- ConvertOptOrderBy(orderBy);
      if onClause.None? {
        return Err(SqlError);
      }
      var condition :- ConvertExprNode(onClause.value);
      var kind :- S.JoinKindOf(joinType);
      if kind == JoinLast {
        r := Ok(LastJoinNode(left, right, order, condition, S.AliasName(alias)));
      } else {
        r := Ok(JoinNode(left, right, kind, condition, S.AliasName(alias)));
      }
    case TableSubquery(subquery, alias) =>
      var sub :- ConvertQueryNode(subquery);
      r := Ok(QueryRefNode(sub, S.AliasName(alias)));
    case OtherTableExpression(_) =>
      r := Err(PlanError);
  }

  method ConvertGroupItems(g: GroupBy) returns (r: Result<seq<ExprNode>>)
    decreases g
    ensures r == S.ConvertExprs(g.groupingItems)
  {
    r := ConvertExprs(g.groupingItems);
  }

  method ConvertWindowClause(wc: WindowClause) returns (r: Result<seq<WindowDefNode>>)
    decreases wc
    ensures r == S.ConvertWindowDefinitions(wc.windows)
  {
    var windows := wc.windows;
    var defs: seq<WindowDefNode> := [];
    var i := 0;
    while i < |windows|
      invariant 0 <= i <= |windows|
      invariant S.ConvertWindowDefinitions(windows) == Prepend(defs, S.ConvertWindowDefinitions(windows[i..]))
      decreases |windows| - i
    {
      assert windows[i..][1..] == windows[i + 1..];
      var w :- ConvertWindowDefinition(windows[i]);
      PrependAppend(defs, w, S.ConvertWindowDefinitions(windows[i + 1..]));
      defs := defs + [w];
      i := i + 1;
    }
    assert windows[i..] == [];
    r := Ok(defs);
  }

  method ConvertLimitOffsetNode(lo: LimitOffset) returns (r: Result<LimitNode>)
    decreases lo
    ensures r == S.ConvertLimitOffsetNode(lo)
  {
    if lo.offset.Some? {
      return Err(SqlError);
    }
    if lo.limit.None? {
      return Err(SqlError);
    }
    var limit :- ConvertExprNode(lo.limit.value);
    if !limit.ConstNode? {
      return Err(SqlError);
    }
    if IsIntegerType(TypeOf(limit.value)) {
      r := Ok(LimitNode(S.AsInt64(limit.value)));
    } else {
      r := Err(SqlError);
    }
  }

  method ConvertQueryNode(q: Query) returns (r: Result<QueryNode>)
    decreases q
    ensures r == S.ConvertQueryNode(q)
  {
    var order :- ConvertOptOrderBy(q.orderBy);
    var limit: Option<LimitNode> := None;
    if q.limitOffset.Some? {
      var l :- ConvertLimitOffsetNode(q.limitOffset.value);
      limit := Some(l);
    }
    var node :- ConvertQueryExpr(q.queryExpr);
    if node.SelectQueryNode? {
      node := node.(limit := limit);
      node := node.(order := order);
    }
    r := Ok(node);
  }

  method ConvertSelect(qe: QueryExpr) returns (r: Result<QueryNode>)
    requires qe.Select?
    decreases qe, 0
    ensures r == S.ConvertQueryExpr(qe)
  {
    var columns :- ConvertSelectList(qe.selectList);
    var tableRefs: Option<seq<TableRefNode>> := None;
    if qe.fromClause.Some? {
      var t :- ConvertTableExpressionNode(qe.fromClause.value.tableExpression);
      tableRefs := Some([t]);
    }
    var where :- ConvertOptExpr(qe.whereClause);
    var groups: Option<seq<ExprNode>> := None;
    if qe.groupBy.Some? {
      var g :- ConvertGroupItems(qe.groupBy.value);
      groups := Some(g);
    }
    var having :- ConvertOptExpr(qe.having);
    var windows: Option<seq<WindowDefNode>> := None;
    if qe.windowClause.Some? {
      var w :- ConvertWindowClause(qe.windowClause.value);
      windows := Some(w);
    }
    r := Ok(SelectQueryNode(false, columns, tableRefs, where, groups, having, None, windows, None));
  }

  /** The UNION loop: the first input, then each further input unioned on the
      right of the node built so far. */
  method ConvertUnion(distinct: bool, inputs: seq<QueryExpr>) returns (r: Result<QueryNode>)
    requires |inputs| >= 2
    decreases inputs
    ensures S.ConvertQueryExprs(inputs).Err? ==> r == Err(S.ConvertQueryExprs(inputs).code)
    ensures S.ConvertQueryExprs(inputs).Ok? ==>
      var nodes := S.ConvertQueryExprs(inputs).value;
      r == Ok(S.UnionChain(nodes[0], nodes[1..], !distinct))
  {
    var left :- ConvertQueryExpr(inputs[0]);
    ghost var nodes := [left];
    var i := 1;
    while i < |inputs|
      invariant 1 <= i <= |inputs| && |nodes| == i
      invariant S.ConvertQueryExprs(inputs) == Prepend(nodes, S.ConvertQueryExprs(inputs[i..]))
      invariant left == S.UnionChain(nodes[0], nodes[1..], !distinct)
      decreases |inputs| - i
    {
      assert inputs[i..][1..] == inputs[i + 1..];
      var n :- ConvertQueryExpr(inputs[i]);
      PrependAppend(nodes, n, S.ConvertQueryExprs(inputs[i + 1..]));
      left := UnionQueryNode(left, n, !distinct);
      assert (nodes + [n])[1..][..i - 1] == nodes[1..];
      nodes := nodes + [n];
      i := i + 1;
    }
    assert inputs[i..] == [];
    r := Ok(left);
  }

  method ConvertQueryExpr(qe: QueryExpr) returns (r: Result<QueryNode>)
    decreases qe, 1
    ensures r == S.ConvertQueryExpr(qe)
  {
    match qe
    case Select(_, _, _, _, _, _, _) =>
      r := ConvertSelect(qe);
    case SetOperation(opType, distinct, inputs) =>
      if opType != Union {
        return Err(SqlError);
      }
      if |inputs| < 2 {
        return Err(SqlError);
      }
      r := ConvertUnion(distinct, inputs);
    case OtherQueryExpression(_) =>
      r := Err(PlanError);
  }

  method ConvertStmt(s: Statement) returns (r: Result<SqlNode>)
    decreases s
    ensures r == S.ConvertStmt(s)
  {
    match s
    case QueryStatement(q) =>
      var n :- ConvertQueryNode(q);
      r := Ok(QueryStmt(n));
    case BeginEndBlock(statements) =>
      var list: seq<SqlNode> := [];
      var i := 0;
      while i < |statements|
        invariant 0 <= i <= |statements|
        invariant S.ConvertStmts(statements) == Prepend(list, S.ConvertStmts(statements[i..]))
        decreases |statements| - i
      {
        assert statements[i..][1..] == statements[i + 1..];
        var n :- ConvertStmt(statements[i]);
        PrependAppend(list, n, S.ConvertStmts(statements[i + 1..]));
        list := list + [n];
        i := i + 1;
      }
      assert statements[i..] == [];
      r := Ok(NodeList(list));
    case OtherStatement(_) =>
      r := Err(SqlError);
  }
}
