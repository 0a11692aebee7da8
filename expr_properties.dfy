/** What the expression converter guarantees: column paths, AND/OR chains,
    CHECK_STATUS propagation, literals and operators. */
module ExprProperties {
  import opened Wrappers
  import opened Syntax
  import opened Ast
  import opened Literals
  import opened ConvertSpec

  // Column paths and `*`

  /** A path of one, two or three names becomes a column reference whose
      factory arguments are those names in order, the missing ones ""; any other
      length is a kSqlError. */
  lemma ColumnPathArity(names: Path)
    ensures ConvertExprNode(PathExpression(names)).Ok? <==> 1 <= |names| <= 3
    ensures |names| == 1 ==> ConvertExprNode(PathExpression(names)) == Ok(ColumnRefNode(names[0], "", ""))
    ensures |names| == 2 ==> ConvertExprNode(PathExpression(names)) == Ok(ColumnRefNode(names[0], names[1], ""))
    ensures |names| == 3 ==> ConvertExprNode(PathExpression(names)) == Ok(ColumnRefNode(names[0], names[1], names[2]))
    ensures |names| > 3 ==> ConvertExprNode(PathExpression(names)) == Err(SqlError)
  {
  }

  /** `*` is AllNode("", ""); `t.*` and `db.t.*` give the qualifier's names as
      the factory's arguments in order; anything else before `.*` is a kSqlError. */
  lemma DotStarArity(target: Expr)
    ensures ConvertExprNode(Star) == Ok(AllNode("", ""))
    ensures ConvertExprNode(DotStar(target)).Ok? <==> target.PathExpression? && |target.names| <= 2
    ensures target.PathExpression? && |target.names| == 1 ==>
      ConvertExprNode(DotStar(target)) == Ok(AllNode(target.names[0], ""))
    ensures target.PathExpression? && |target.names| == 2 ==>
      ConvertExprNode(DotStar(target)) == Ok(AllNode(target.names[0], target.names[1]))
    ensures ConvertExprNode(DotStar(target)).Err? ==> ConvertExprNode(DotStar(target)).code == SqlError
  {
  }


  // Lists and first failure

  /** A converted list has one node per expression, each the conversion of the
      expression at the same position, and it exists exactly when every element converts. */
  lemma {:induction false} ExprsPointwise(es: seq<Expr>)
    ensures ConvertExprs(es).Ok? <==> forall i | 0 <= i < |es| :: ConvertExprNode(es[i]).Ok?
    ensures ConvertExprs(es).Ok? ==>
      forall i | 0 <= i < |es| :: ConvertExprNode(es[i]) == Ok(ConvertExprs(es).value[i])
  {
    if |es| > 0 {
      ExprsPointwise(es[1..]);
      assert forall i | 1 <= i < |es| :: es[1..][i - 1] == es[i];
    }
  }

  /** CHECK_STATUS: a failing list fails with the status of its first failing element. */
  lemma {:induction false} ExprsFirstFailure(es: seq<Expr>)
    ensures ConvertExprs(es).Err? ==>
      exists i | 0 <= i < |es| ::
        (forall j | 0 <= j < i :: ConvertExprNode(es[j]).Ok?)
        && ConvertExprNode(es[i]) == Err(ConvertExprs(es).code)
  {
    if |es| > 0 && ConvertExprs(es).Err? && ConvertExprNode(es[0]).Ok? {
      ExprsFirstFailure(es[1..]);
      var k :| 0 <= k < |es[1..]|
        && (forall j | 0 <= j < k :: ConvertExprNode(es[1..][j]).Ok?)
        && ConvertExprNode(es[1..][k]) == Err(ConvertExprs(es[1..]).code);
      assert forall j | 0 <= j < k + 1 :: ConvertExprNode(es[j]).Ok? by {
        forall j | 0 <= j < k + 1
          ensures ConvertExprNode(es[j]).Ok?
        {
          if j > 0 {
            assert es[j] == es[1..][j - 1];
          }
        }
      }
      assert es[k + 1] == es[1..][k];
    }
  }

  /** ConvertExprNodeList: an empty list gives no list, a non-empty one the converted list. */
  lemma ExprNodeListEmpty(es: seq<Expr>)
    ensures |es| == 0 ==> ConvertExprNodeList(es) == Ok(None)
    ensures |es| > 0 && ConvertExprs(es).Ok? ==> ConvertExprNodeList(es) == Ok(Some(ConvertExprs(es).value))
    ensures ConvertExprNodeList(es).Ok? && ConvertExprNodeList(es).value.Some? ==> |ConvertExprNodeList(es).value.value| == |es| > 0
  {
  }

  // AND / OR

  /** Reads a left-leaning chain of `n` binary `op` nodes back into its operands. */
  function Unchain(op: FnOperator, n: nat, e: ExprNode): Option<seq<ExprNode>>
    decreases n
  {
    if n == 0 then Some([e])
    else
      match e
      case BinaryExprNode(o, l, r) =>
        if o != op then None
        else
          (match Unchain(op, n - 1, l)
           case Some(xs) => Some(xs + [r])
           case None => None)
      case _ => None
  }

  lemma {:induction false} ChainUnchain(op: FnOperator, first: ExprNode, rest: seq<ExprNode>)
    ensures Unchain(op, |rest|, Chain(op, first, rest)) == Some([first] + rest)
    decreases |rest|
  {
    if rest != [] {
      var init, last := rest[..|rest| - 1], rest[|rest| - 1];
      ChainUnchain(op, first, init);
      assert Chain(op, first, rest) == BinaryExprNode(op, Chain(op, first, init), last);
      assert Unchain(op, |rest|, Chain(op, first, rest)) == Some(([first] + init) + [last]);
      assert [first] + rest == ([first] + init) + [last];
    } else {
      assert [first] + rest == [first];
    }
  }

  /** An AND (OR) of N operands is a left-associative chain of exactly N-1 And (Or)
      nodes whose operands, in order, are the converted operands. */
  lemma JunctionShape(op: FnOperator, operands: seq<Expr>)
    ensures ConvertJunction(op, operands).Ok? <==> |operands| >= 1 && ConvertExprs(operands).Ok?
    ensures ConvertJunction(op, operands).Ok? ==>
      Unchain(op, |operands| - 1, ConvertJunction(op, operands).value) == Some(ConvertExprs(operands).value)
    ensures |operands| == 0 ==> ConvertJunction(op, operands) == Err(SqlError)
  {
    if |operands| >= 1 && ConvertExprs(operands).Ok? {
      var nodes := ConvertExprs(operands).value;
      ChainUnchain(op, nodes[0], nodes[1..]);
      assert [nodes[0]] + nodes[1..] == nodes;
    }
  }

  lemma AndShape(conjuncts: seq<Expr>)
    ensures ConvertExprNode(AndExpr(conjuncts)).Ok? <==>
      |conjuncts| >= 1 && forall i | 0 <= i < |conjuncts| :: ConvertExprNode(conjuncts[i]).Ok?
    ensures ConvertExprNode(AndExpr(conjuncts)).Ok? ==>
      var xs := Unchain(OpAnd, |conjuncts| - 1, ConvertExprNode(AndExpr(conjuncts)).value);
      xs.Some? && |xs.value| == |conjuncts|
      && forall i | 0 <= i < |conjuncts| :: ConvertExprNode(conjuncts[i]) == Ok(xs.value[i])
  {
    JunctionShape(OpAnd, conjuncts);
    ExprsPointwise(conjuncts);
  }

  lemma OrShape(disjuncts: seq<Expr>)
    ensures ConvertExprNode(OrExpr(disjuncts)).Ok? <==>
      |disjuncts| >= 1 && forall i | 0 <= i < |disjuncts| :: ConvertExprNode(disjuncts[i]).Ok?
    ensures ConvertExprNode(OrExpr(disjuncts)).Ok? ==>
      var xs := Unchain(OpOr, |disjuncts| - 1, ConvertExprNode(OrExpr(disjuncts)).value);
      xs.Some? && |xs.value| == |disjuncts|
      && forall i | 0 <= i < |disjuncts| :: ConvertExprNode(disjuncts[i]) == Ok(xs.value[i])
  {
    JunctionShape(OpOr, disjuncts);
    ExprsPointwise(disjuncts);
  }

  /** `a AND b AND c` is `(a AND b) AND c`. */
  lemma ThreeConjuncts(a: string, b: string, c: string)
    ensures ConvertExprNode(AndExpr([Identifier(a), Identifier(b), Identifier(c)]))
         == Ok(BinaryExprNode(OpAnd, BinaryExprNode(OpAnd, ExprIdNode(a), ExprIdNode(b)), ExprIdNode(c)))
  {
    var es := [Identifier(a), Identifier(b), Identifier(c)];
    assert es[1..] == [Identifier(b), Identifier(c)];
    assert es[1..][1..] == [Identifier(c)];
    assert es[1..][1..][1..] == [];
    assert ConvertExprs(es[1..][1..]) == Ok([ExprIdNode(c)] + []);
    assert [ExprIdNode(c)] + [] == [ExprIdNode(c)];
    assert ConvertExprs(es[1..]) == Ok([ExprIdNode(b)] + [ExprIdNode(c)]);
    assert [ExprIdNode(b)] + [ExprIdNode(c)] == [ExprIdNode(b), ExprIdNode(c)];
    assert ConvertExprs(es) == Ok([ExprIdNode(a)] + [ExprIdNode(b), ExprIdNode(c)]);
    assert [ExprIdNode(a)] + [ExprIdNode(b), ExprIdNode(c)] == [ExprIdNode(a), ExprIdNode(b), ExprIdNode(c)];
    var nodes := [ExprIdNode(a), ExprIdNode(b), ExprIdNode(c)];
    var rest := nodes[1..];
    assert rest == [ExprIdNode(b), ExprIdNode(c)];
    assert rest[..1] == [ExprIdNode(b)];
    assert rest[..1][..0] == [];
    assert Chain(OpAnd, ExprIdNode(a), rest[..1]) == BinaryExprNode(OpAnd, ExprIdNode(a), ExprIdNode(b));
    assert ConvertJunction(OpAnd, es) == Ok(Chain(OpAnd, nodes[0], rest));
  }

  // Operators

  /** `!=` and `<>` are the same operator. */
  lemma NotEqualSpellings(lhs: Expr, rhs: Expr, isNot: bool)
    ensures ConvertExprNode(BinaryExpression(Ne, lhs, rhs, isNot)) == ConvertExprNode(BinaryExpression(Ne2, lhs, rhs, isNot))
    ensures ConvertExprNode(BinaryExpression(Ne, lhs, rhs, isNot)).Ok? ==>
      ConvertExprNode(BinaryExpression(Ne, lhs, rhs, isNot)).value.BinaryExprNode?
      && ConvertExprNode(BinaryExpression(Ne, lhs, rhs, isNot)).value.op == OpNeq
  {
  }

  /** An operator outside the table is a kSqlError, but only once both operands
      have converted (their failure is reported first). */
  lemma UnsupportedBinaryOperator(op: BinaryOp, lhs: Expr, rhs: Expr, isNot: bool)
    requires BinaryOperator(op).None?
    ensures ConvertExprNode(lhs).Err? ==> ConvertExprNode(BinaryExpression(op, lhs, rhs, isNot)) == Err(ConvertExprNode(lhs).code)
    ensures ConvertExprNode(lhs).Ok? && ConvertExprNode(rhs).Err? ==>
      ConvertExprNode(BinaryExpression(op, lhs, rhs, isNot)) == Err(ConvertExprNode(rhs).code)
    ensures ConvertExprNode(lhs).Ok? && ConvertExprNode(rhs).Ok? ==>
      ConvertExprNode(BinaryExpression(op, lhs, rhs, isNot)) == Err(SqlError)
  {
    BinaryCase(op, lhs, rhs, isNot);
  }

  /** One binary expression: the operands' statuses in order, then the operator
      table. The parser's NOT flag changes nothing: `a NOT LIKE b` converts
      exactly as `a LIKE b`. */
  lemma BinaryCase(op: BinaryOp, lhs: Expr, rhs: Expr, isNot: bool)
    ensures ConvertExprNode(BinaryExpression(op, lhs, rhs, isNot)) == ConvertExprNode(BinaryExpression(op, lhs, rhs, !isNot))
    ensures ConvertExprNode(lhs).Err? ==> ConvertExprNode(BinaryExpression(op, lhs, rhs, isNot)) == Err(ConvertExprNode(lhs).code)
    ensures ConvertExprNode(lhs).Ok? && ConvertExprNode(rhs).Err? ==>
      ConvertExprNode(BinaryExpression(op, lhs, rhs, isNot)) == Err(ConvertExprNode(rhs).code)
    ensures ConvertExprNode(lhs).Ok? && ConvertExprNode(rhs).Ok? && BinaryOperator(op).Some? ==>
      ConvertExprNode(BinaryExpression(op, lhs, rhs, isNot))
        == Ok(BinaryExprNode(BinaryOperator(op).value, ConvertExprNode(lhs).value, ConvertExprNode(rhs).value))
    ensures ConvertExprNode(lhs).Ok? && ConvertExprNode(rhs).Ok? && BinaryOperator(op).None? ==>
      ConvertExprNode(BinaryExpression(op, lhs, rhs, isNot)) == Err(SqlError)
  {
  }

  /** `c NOT LIKE p` becomes the same LIKE node as `c LIKE p`: the negation is lost. */
  lemma NotLikeAsLike(column: string, pattern: string)
    ensures ConvertExprNode(BinaryExpression(Like, PathExpression([column]), StringLiteral(pattern), true))
      == Ok(BinaryExprNode(OpLike, ColumnRefNode(column, "", ""), ConstNode(StringConst(pattern))))
    ensures ConvertExprNode(BinaryExpression(Like, PathExpression([column]), StringLiteral(pattern), true))
      == ConvertExprNode(BinaryExpression(Like, PathExpression([column]), StringLiteral(pattern), false))
  {
  }

  /** The binary table is onto the arithmetic and comparison operators,
      never onto NOT, AND or OR. */
  lemma BinaryOperatorRange(op: BinaryOp)
    ensures BinaryOperator(op).Some? ==> BinaryOperator(op).value !in {OpNot, OpAnd, OpOr}
    ensures BinaryOperator(op).Some? <==> op !in {Is, BitwiseOr, BitwiseXor, BitwiseAnd, ConcatOp, IsDistinctFrom, BinaryOpNotSet}
  {
  }

  /** Unary plus is an Add node over the one operand, unary minus a Minus node. */
  lemma UnarySigns(operand: Expr)
    ensures ConvertExprNode(operand).Ok? ==>
      ConvertExprNode(UnaryExpression(UnaryPlus, operand)) == Ok(UnaryExprNode(OpAdd, ConvertExprNode(operand).value))
      && ConvertExprNode(UnaryExpression(UnaryMinus, operand)) == Ok(UnaryExprNode(OpMinus, ConvertExprNode(operand).value))
    ensures ConvertExprNode(UnaryExpression(BitwiseNot, operand)).Err?
  {
    UnaryCase(UnaryPlus, operand);
    UnaryCase(UnaryMinus, operand);
    UnaryCase(BitwiseNot, operand);
  }

  /** One unary expression: the operand's status first, then the operator table. */
  lemma UnaryCase(op: UnaryOp, operand: Expr)
    ensures ConvertExprNode(operand).Err? ==> ConvertExprNode(UnaryExpression(op, operand)) == Err(ConvertExprNode(operand).code)
    ensures ConvertExprNode(operand).Ok? && UnaryOperator(op).Some? ==>
      ConvertExprNode(UnaryExpression(op, operand)) == Ok(UnaryExprNode(UnaryOperator(op).value, ConvertExprNode(operand).value))
    ensures UnaryOperator(op).None? ==> ConvertExprNode(UnaryExpression(op, operand)).Err?
  {
  }

  /** BETWEEN converts the value, then the low and then the high bound, the
      first failure deciding the status; NOT is kept. */
  lemma BetweenShape(x: Expr, low: Expr, high: Expr, isNot: bool)
    ensures ConvertExprNode(BetweenExpression(x, low, high, isNot)).Ok? <==>
      ConvertExprNode(x).Ok? && ConvertExprNode(low).Ok? && ConvertExprNode(high).Ok?
    ensures ConvertExprNode(BetweenExpression(x, low, high, isNot)).Ok? ==>
      ConvertExprNode(BetweenExpression(x, low, high, isNot)).value ==
        BetweenExprNode(ConvertExprNode(x).value, ConvertExprNode(low).value, ConvertExprNode(high).value, isNot)
    ensures ConvertExprNode(x).Err? ==>
      ConvertExprNode(BetweenExpression(x, low, high, isNot)) == Err(ConvertExprNode(x).code)
    ensures ConvertExprNode(x).Ok? && ConvertExprNode(low).Err? ==>
      ConvertExprNode(BetweenExpression(x, low, high, isNot)) == Err(ConvertExprNode(low).code)
    ensures ConvertExprNode(x).Ok? && ConvertExprNode(low).Ok? && ConvertExprNode(high).Err? ==>
      ConvertExprNode(BetweenExpression(x, low, high, isNot)) == Err(ConvertExprNode(high).code)
  {
  }

  /** Function calls with a modifier are refused before any argument is converted. */
  lemma CallModifiersRefused(call: Call)
    ensures call.hasModifiers ==> ConvertExprNode(FunctionCall(call)) == Err(SqlError)
    ensures ConvertExprNode(FunctionCall(call)).Ok? ==>
      ConvertExprNode(FunctionCall(call)).value.CallExprNode?
      && ConvertExprNode(FunctionCall(call)).value.functionName == PathString(call.functionName)
      && ConvertExprNode(FunctionCall(call)).value.over.None?
  {
  }

  /** An analytic call is the plain call with its OVER window attached. */
  lemma AnalyticCallOver(call: Call, ws: WindowSpec)
    ensures ConvertExprNode(AnalyticFunctionCall(call, ws)).Ok? <==>
      ConvertExprNode(FunctionCall(call)).Ok? && ConvertWindowSpecification(ws).Ok?
    ensures ConvertExprNode(AnalyticFunctionCall(call, ws)).Ok? ==>
      ConvertExprNode(FunctionCall(call)).value.CallExprNode? &&
      ConvertExprNode(AnalyticFunctionCall(call, ws)).value
        == ConvertExprNode(FunctionCall(call)).value.(over := Some(ConvertWindowSpecification(ws).value))
  {
  }

  // Literals

  lemma DecimalNotHexNorLong(n: nat)
    ensures !IsHex(DecimalString(n)) && !IsLong(DecimalString(n))
  {
    var s := DecimalString(n);
    assert IsDigit(s[|s| - 1]);
    if |s| >= 2 {
      assert IsDigit(s[1]);
    }
  }

  /** Every integer literal that converts is a 32-bit constant holding an int32
      value or a 64-bit constant holding an int64 value outside the int32 range;
      a hex literal never converts. */
  lemma IntLiteralClassification(image: string)
    ensures IsHex(image) ==> ConvertExprNode(IntLiteral(image)) == Err(SqlError)
    ensures ConvertExprNode(IntLiteral(image)).Ok? ==>
      var c := ConvertExprNode(IntLiteral(image)).value;
      c.ConstNode?
      && ((c.value.IntConst? && Int32Min <= c.value.i32 <= Int32Max)
          || (c.value.BigIntConst? && !(Int32Min <= c.value.i64 <= Int32Max)
              && Int64Min <= c.value.i64 <= Int64Max))
    ensures !IsHex(image) && ConvertExprNode(IntLiteral(image)).Err? ==> ConvertExprNode(IntLiteral(image)) == Err(TypeError)
  {
  }

  /** The decimal text of n (with or without the long suffix) is a 32-bit constant
      when n fits in int32 and a 64-bit constant otherwise. */
  lemma DecimalIntLiteral(n: nat)
    requires n <= Int64Max
    ensures ConvertExprNode(IntLiteral(DecimalString(n)))
         == Ok(ConstNode(if n <= Int32Max then IntConst(n) else BigIntConst(n)))
    ensures ConvertExprNode(IntLiteral(DecimalString(n) + "L"))
         == Ok(ConstNode(if n <= Int32Max then IntConst(n) else BigIntConst(n)))
  {
    StringToBigintDecimal(n);
    DigitsIntLiteral(DecimalString(n), n);
  }

  /** A literal made of digits, which string_to_bigint reads as v, converts to
      the constant v, with or without the long suffix. */
  lemma DigitsIntLiteral(d: string, v: int)
    requires |d| >= 1 && AllDigits(d) && StringToBigint(d) == Some(v)
    ensures ConvertExprNode(IntLiteral(d)) == Ok(ConstNode(if Int32Min <= v <= Int32Max then IntConst(v) else BigIntConst(v)))
    ensures ConvertExprNode(IntLiteral(d + "L")) == Ok(ConstNode(if Int32Min <= v <= Int32Max then IntConst(v) else BigIntConst(v)))
  {
    var s := d + "L";
    assert IsDigit(d[|d| - 1]);
    assert s[..|s| - 1] == d;
    assert s[0] == d[0];
    if |d| >= 2 {
      assert s[1] == d[1];
      assert IsDigit(d[1]);
    } else {
      assert s[1] == 'L';
    }
    assert !IsHex(d) && !IsLong(d) && !IsHex(s) && IsLong(s);
    assert IntLiteralToNum(IntLiteral(d)) == Ok(v);
    assert IntLiteralToNum(IntLiteral(s)) == Ok(v);
  }

  /** The interval unit is chosen by the last character alone. */
  lemma IntervalUnitTable(image: string, u: char)
    ensures IntervalUnit(image + [u]) == IntervalUnit([u])
    ensures IntervalUnit([u]).Some? <==> u in "dDhHmMsS"
    ensures (u == 'd' || u == 'D') ==> IntervalUnit([u]) == Some(Day)
    ensures (u == 'h' || u == 'H') ==> IntervalUnit([u]) == Some(Hour)
    ensures (u == 'm' || u == 'M') ==> IntervalUnit([u]) == Some(Minute)
    ensures (u == 's' || u == 'S') ==> IntervalUnit([u]) == Some(Second)
  {
    assert (image + [u])[|image + [u]| - 1] == u;
  }

  /** `<n><u>` is the constant n in the unit u selects; an unknown unit is a kTypeError. */
  lemma IntervalLiteralValue(n: nat, u: char)
    requires n <= Int64Max
    ensures IntervalUnit([u]).Some? ==>
      ConvertExprNode(IntervalLiteral(DecimalString(n) + [u])) == Ok(ConstNode(UnitConst(n, IntervalUnit([u]).value)))
    ensures IntervalUnit([u]).None? ==>
      ConvertExprNode(IntervalLiteral(DecimalString(n) + [u])) == Err(TypeError)
  {
    IntervalUnitTable(DecimalString(n), u);
    StringToBigintDecimal(n);
    var s := DecimalString(n) + [u];
    assert s[..|s| - 1] == DecimalString(n);
  }

  /** Converting a boolean literal reads its image case-insensitively. */
  lemma BoolLiteralValue(image: string)
    ensures ConvertExprNode(BooleanLiteral(image)).Ok? <==> ToLower(image) == "true" || ToLower(image) == "false"
    ensures ConvertExprNode(BooleanLiteral(image)).Ok? ==>
      ConvertExprNode(BooleanLiteral(image)) == Ok(ConstNode(BoolConst(ToLower(image) == "true")))
    ensures ConvertExprNode(BooleanLiteral(image)).Err? ==> ConvertExprNode(BooleanLiteral(image)).code == SqlError
  {
  }
}
