/** Two places where the converter, as written, follows a reference the parser
    leaves null. Each is modelled as written, with an input that reaches the
    null dereference, next to the definition the rest of the model uses, which
    refuses the input with an error status instead. */
module Findings {
  import opened Wrappers
  import opened Syntax
  import opened Ast
  import opened Literals
  import S = ConvertSpec
  import D = DdlSpec

  /** What a C++ conversion does when it may follow a null reference: it either
      returns a status (and a node) or dereferences null. */
  datatype Outcome<T> = Returns(result: Result<T>) | NullDeref

  // The ON clause of a join

  /** The AST_JOIN case as written: after both sides and the ORDER BY, the ON
      clause's expression is read through `on_clause()` without a null check. */
  function JoinConditionAsWritten(t: TableExpr): (r: Outcome<TableRefNode>)
    requires t.Join?
    ensures t.onClause.Some? ==> r == Returns(S.ConvertTableExpressionNode(t))
  {
    if t.hasHint || t.joinHint != NoJoinHint || t.hasUsing || t.natural then Returns(Err(SqlError))
    else
      match S.ConvertTableExpressionNode(t.lhs)
      case Err(c) => Returns(Err(c))
      case Ok(left) =>
        match S.ConvertTableExpressionNode(t.rhs)
        case Err(c) => Returns(Err(c))
        case Ok(right) =>
          match S.ConvertOptOrderBy(t.joinOrderBy)
          case Err(c) => Returns(Err(c))
          case Ok(order) =>
            match t.onClause
            case None => NullDeref
            case Some(on) =>
              match S.ConvertExprNode(on)
              case Err(c) => Returns(Err(c))
              case Ok(condition) =>
                match S.JoinKindOf(t.joinType)
                case Err(c) => Returns(Err(c))
                case Ok(kind) =>
                  if kind == JoinLast then Returns(Ok(LastJoinNode(left, right, order, condition, S.AliasName(t.alias))))
                  else Returns(Ok(JoinNode(left, right, kind, condition, S.AliasName(t.alias))))
  }

  function Table(name: string): TableExpr {
    TablePathExpression([name], None, false, false, false, false, false, false)
  }

  /** `SELECT * FROM t1, t2`: a comma join has no ON clause, so the code as
      written dereferences null where the join-type switch would have refused
      the join; the corrected conversion returns kSqlError. */
  lemma CommaJoinCounterexample()
    ensures JoinConditionAsWritten(Join(Table("t1"), Table("t2"), Comma, NoJoinHint, false, false, false, None, None, None)) == NullDeref
    ensures S.ConvertTableExpressionNode(Join(Table("t1"), Table("t2"), Comma, NoJoinHint, false, false, false, None, None, None)) == Err(SqlError)
  {
    assert S.ConvertTableExpressionNode(Table("t1")) == Ok(TableNode("t1", ""));
    assert S.ConvertTableExpressionNode(Table("t2")) == Ok(TableNode("t2", ""));
  }

  /** `t1 CROSS JOIN t2` reaches the same dereference. */
  lemma CrossJoinCounterexample()
    ensures JoinConditionAsWritten(Join(Table("t1"), Table("t2"), Cross, NoJoinHint, false, false, false, None, None, None)) == NullDeref
  {
    assert S.ConvertTableExpressionNode(Table("t1")) == Ok(TableNode("t1", ""));
    assert S.ConvertTableExpressionNode(Table("t2")) == Ok(TableNode("t2", ""));
  }

  /** Exactly the joins that reach the ON clause without one dereference null;
      everywhere else the code as written and the corrected conversion agree. */
  lemma JoinAsWrittenAgrees(t: TableExpr)
    requires t.Join?
    ensures JoinConditionAsWritten(t) == NullDeref <==>
      t.onClause.None? && !(t.hasHint || t.joinHint != NoJoinHint || t.hasUsing || t.natural)
      && S.ConvertTableExpressionNode(t.lhs).Ok? && S.ConvertTableExpressionNode(t.rhs).Ok?
      && S.ConvertOptOrderBy(t.joinOrderBy).Ok?
    ensures JoinConditionAsWritten(t) != NullDeref ==> JoinConditionAsWritten(t) == Returns(S.ConvertTableExpressionNode(t))
  {
  }

  // The follower list of a distribution element

  /** One distribution element as written: the second field is cast to an array
      with GetAsOrNull and its elements are read without a null check. */
  function DistributionElementAsWritten(e: Expr): (r: Outcome<seq<PartitionMetaNode>>)
    ensures e.StructConstructorWithParens? && |e.fieldExpressions| == 2 && e.fieldExpressions[1].ArrayConstructor? ==>
      r == Returns(D.ConvertDistributionElement(e))
  {
    match e
    case StructConstructorWithParens(fields) =>
      if |fields| != 2 then Returns(Err(PlanError))
      else
        (match StringLiteralToString(fields[0])
         case Err(c) => Returns(Err(c))
         case Ok(leader) =>
           match fields[1]
           case ArrayConstructor(fos) =>
             (match D.StringLiterals(fos)
              case Err(c) => Returns(Err(c))
              case Ok(followers) =>
                Returns(Ok([PartitionMetaNode(Leader, leader), PartitionMetaNode(Follower, D.LastOrEmpty(followers))])))
           case _ => NullDeref)
    case _ => Returns(Err(PlanError))
  }

  /** `distribution=[('leader', 'follower')]`: a follower written as a plain
      string rather than a list reaches the null follower list; the corrected
      conversion returns kPlanError, like every other malformed element. */
  lemma DistributionCounterexample()
    ensures DistributionElementAsWritten(StructConstructorWithParens([StringLiteral("leader"), StringLiteral("follower")])) == NullDeref
    ensures D.ConvertDistributionElement(StructConstructorWithParens([StringLiteral("leader"), StringLiteral("follower")])) == Err(PlanError)
  {
  }

  /** The only elements that dereference null are well-formed pairs whose second
      field is not an array; everywhere else the two agree. */
  lemma DistributionAsWrittenAgrees(e: Expr)
    ensures DistributionElementAsWritten(e) == NullDeref <==>
      e.StructConstructorWithParens? && |e.fieldExpressions| == 2
      && e.fieldExpressions[0].StringLiteral? && !e.fieldExpressions[1].ArrayConstructor?
    ensures DistributionElementAsWritten(e) != NullDeref ==> DistributionElementAsWritten(e) == Returns(D.ConvertDistributionElement(e))
  {
  }
}
