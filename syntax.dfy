/** The syntax tree handed over by the SQL parser, reduced to the node kinds and
    accessors the converter reads. Each datatype stands for one parser node class;
    a field of type `Option` is a child the parser may leave out (a null child). */
module Syntax {
  import opened Wrappers

  /** The names of a path expression; the parser never builds an empty one. */
  type Path = p: seq<string> | |p| >= 1 witness [""]

  datatype BinaryOp =
    | Eq | Ne | Ne2 | Gt | Lt | Ge | Le
    | Plus | Minus | Multiply | Divide | IDivide | Like | Mod
    | Is | BitwiseOr | BitwiseXor | BitwiseAnd | ConcatOp | IsDistinctFrom | BinaryOpNotSet

  datatype UnaryOp = Not | BitwiseNot | UnaryMinus | UnaryPlus | IsUnknown | IsNotUnknown | UnaryOpNotSet

  /** Literal kinds the converter refuses outright. */
  datatype LiteralKind = DateOrTimeLiteral | NumericLiteral | BigNumericLiteral | JsonLiteral | BytesLiteral

  datatype Expr =
    | Star
    | DotStar(target: Expr)
    | Identifier(name: string)
    | ExpressionSubquery(query: Query)
    | PathExpression(names: Path)
    | BinaryExpression(op: BinaryOp, lhs: Expr, rhs: Expr, isNot: bool)
    | UnaryExpression(unaryOp: UnaryOp, operand: Expr)
    | AndExpr(conjuncts: seq<Expr>)
    | OrExpr(disjuncts: seq<Expr>)
    | BetweenExpression(lhs: Expr, low: Expr, high: Expr, isNot: bool)
    | FunctionCall(call: Call)
    | AnalyticFunctionCall(call: Call, windowSpec: WindowSpec)
    | IntLiteral(image: string)
    | StringLiteral(stringValue: string)
    | BooleanLiteral(image: string)
    | FloatLiteral(image: string)
    | IntervalLiteral(image: string)
    | NullLiteral
    | UnsupportedLiteral(literalKind: LiteralKind)
    | StructConstructorWithParens(fieldExpressions: seq<Expr>)
    | ArrayConstructor(elements: seq<Expr>)
    | OtherExpression(kind: string)

  /** A function call: the function's path, its arguments, and whether any
      modifier (DISTINCT, ORDER BY, LIMIT, HAVING, named arguments, ...) is present. */
  datatype Call = Call(functionName: Path, arguments: seq<Expr>, hasModifiers: bool)

  datatype WindowSpec = WindowSpec(
    baseWindowName: Option<string>,
    partitionBy: Option<PartitionBy>,
    orderBy: Option<OrderBy>,
    windowFrame: Option<WindowFrame>,
    unionTables: Option<UnionTables>,
    excludeCurrentTime: bool,
    instanceNotInWindow: bool)

  datatype PartitionBy = PartitionBy(partitioningExpressions: seq<Expr>)
  datatype UnionTables = UnionTables(tableReferences: seq<TableExpr>)
  datatype OrderBy = OrderBy(orderingExpressions: seq<OrderingExpression>)
  datatype OrderingExpression = OrderingExpression(expression: Expr, descending: bool)

  datatype FrameUnit = Rows | Range | RowsRange
  datatype BoundaryType = UnboundedPreceding | OffsetPreceding | CurrentRow | OffsetFollowing | UnboundedFollowing

  datatype WindowFrame = WindowFrame(frameUnit: FrameUnit, startExpr: WindowFrameExpr,
                                     endExpr: Option<WindowFrameExpr>, maxSize: Option<Expr>)
  datatype WindowFrameExpr = WindowFrameExpr(boundaryType: BoundaryType, isOpenBoundary: bool,
                                             expression: Option<Expr>)

  datatype JoinType = DefaultJoinType | Comma | Cross | Full | Inner | Left | Right | Last
  datatype JoinHint = NoJoinHint | HashJoinHint | LookupJoinHint

  /** FROM-clause items. For a table path, the booleans say whether the PIVOT,
      UNPIVOT, FOR SYSTEM_TIME, WITH OFFSET, TABLESAMPLE and hint clauses are present. */
  datatype TableExpr =
    | TablePathExpression(pathExpr: Path, alias: Option<string>,
                          hasPivot: bool, hasUnpivot: bool, hasForSystemTime: bool,
                          hasWithOffset: bool, hasSample: bool, hasHint: bool)
    | Join(lhs: TableExpr, rhs: TableExpr, joinType: JoinType, joinHint: JoinHint,
           hasHint: bool, hasUsing: bool, natural: bool,
           joinOrderBy: Option<OrderBy>, onClause: Option<Expr>, alias: Option<string>)
    | TableSubquery(subquery: Query, alias: Option<string>)
    | OtherTableExpression(tableKind: string)

  datatype Query = Query(queryExpr: QueryExpr, orderBy: Option<OrderBy>, limitOffset: Option<LimitOffset>)
  datatype LimitOffset = LimitOffset(limit: Option<Expr>, offset: Option<Expr>)

  datatype SetOpType = Union | Except | Intersect

  datatype QueryExpr =
    | Select(distinct: bool, selectList: SelectList, fromClause: Option<FromClause>, whereClause: Option<Expr>,
             groupBy: Option<GroupBy>, having: Option<Expr>, windowClause: Option<WindowClause>)
    | SetOperation(opType: SetOpType, distinct: bool, inputs: seq<QueryExpr>)
    | OtherQueryExpression(queryKind: string)

  datatype SelectList = SelectList(columns: seq<SelectColumn>)
  datatype SelectColumn = SelectColumn(expression: Expr, alias: Option<string>)
  datatype FromClause = FromClause(tableExpression: TableExpr)
  datatype GroupBy = GroupBy(groupingItems: seq<Expr>)
  datatype WindowClause = WindowClause(windows: seq<WindowDefinition>)
  datatype WindowDefinition = WindowDefinition(name: Option<string>, windowSpec: WindowSpec)

  datatype Statement =
    | QueryStatement(query: Query)
    | BeginEndBlock(statementList: seq<Statement>)
    | OtherStatement(statementKind: string)

  // DDL

  datatype CreateTableStatement = CreateTableStatement(
    name: Path, isIfNotExists: bool,
    tableElementList: Option<TableElementList>, optionsList: Option<OptionsList>)

  datatype TableElementList = TableElementList(elements: seq<TableElement>)
  datatype OptionsList = OptionsList(optionsEntries: seq<OptionsEntry>)
  datatype OptionsEntry = OptionsEntry(name: string, value: Expr)

  datatype TableElement =
    | ColumnDefinition(columnName: string, schema: ColumnSchema)
    | IndexDefinition(indexOptions: OptionsList)
    | OtherTableElement(elementKind: string)

  datatype ColumnSchema = ColumnSchema(shape: SchemaShape, attributes: seq<ColumnAttribute>)
  datatype SchemaShape = SimpleColumnSchema(typeName: Path) | OtherColumnSchema(schemaKind: string)
  datatype ColumnAttribute =
    | NotNullColumnAttribute | HiddenColumnAttribute | PrimaryKeyColumnAttribute | ForeignKeyColumnAttribute

  datatype CreateProcedureStatement = CreateProcedureStatement(
    name: Path, parameters: seq<FunctionParameter>, body: Script)

  /** A procedure parameter; `paramType` is absent when the parameter is written
      with a templated type or a TVF schema instead of a type. */
  datatype FunctionParameter = FunctionParameter(isConstant: bool, paramName: string, paramType: Option<ParamType>)
  datatype ParamType = SimpleType(typeName: Path) | OtherParamType(typeKind: string)

  datatype Script = Script(statementList: seq<Statement>)

  // Accessors the parser computes from a literal's image.

  /** ASTIntLiteral::is_hex: the image starts with 0x or 0X. */
  predicate IsHex(image: string) {
    |image| >= 2 && image[0] == '0' && (image[1] == 'x' || image[1] == 'X')
  }

  /** ASTIntLiteral::is_long: the image ends with the long suffix l or L. */
  predicate IsLong(image: string) {
    |image| >= 1 && (image[|image| - 1] == 'l' || image[|image| - 1] == 'L')
  }

  /** ASTFloatLiteral::is_float32: the image ends with the suffix f or F. */
  predicate IsFloat32(image: string) {
    |image| >= 1 && (image[|image| - 1] == 'f' || image[|image| - 1] == 'F')
  }

  /** ToIdentifierPathString: the names joined with dots (identifier quoting left out). */
  function PathString(names: seq<string>): (s: string)
    ensures |names| == 1 ==> s == names[0]
  {
    if |names| == 0 then ""
    else if |names| == 1 then names[0]
    else PathString(names[..|names| - 1]) + "." + names[|names| - 1]
  }
}
