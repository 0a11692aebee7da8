/** The engine's own AST, built by the converter. Nodes are immutable values;
    a node that the C++ code updates after building it (SetOver, SetName,
    SetLimit, SetOrder) is rebuilt with the updated field. */
module Ast {
  import opened Wrappers

  datatype FnOperator =
    | OpEq | OpNeq | OpGt | OpLt | OpGe | OpLe
    | OpAdd | OpMinus | OpMulti | OpFDiv | OpDiv | OpLike | OpMod
    | OpNot | OpAnd | OpOr

  /** node::DataType, restricted to the values this core produces or tests. */
  datatype DataType =
    | Bool | Int16 | Int32 | Int64 | Float | Double | Varchar | Timestamp | Date | NullType
    | Day | Hour | Minute | Second | Latest

  /** The value of a ConstNode. A float or double constant keeps the text it
      was parsed from; an interval or TTL constant is a count with a unit. */
  datatype ConstValue =
    | IntConst(i32: int)
    | BigIntConst(i64: int)
    | StringConst(str: string)
    | BoolConst(b: bool)
    | FloatConst(floatImage: string)
    | DoubleConst(doubleImage: string)
    | UnitConst(count: int, unit: DataType)
    | NullConst

  /** ConstNode::GetDataType. */
  function TypeOf(c: ConstValue): DataType {
    match c
    case IntConst(_) => Int32
    case BigIntConst(_) => Int64
    case StringConst(_) => Varchar
    case BoolConst(_) => Bool
    case FloatConst(_) => Float
    case DoubleConst(_) => Double
    case UnitConst(_, unit) => unit
    case NullConst => NullType
  }

  predicate IsIntegerType(t: DataType) {
    t == Int16 || t == Int32 || t == Int64
  }

  /** AllNode and ColumnRefNode hold the string arguments of MakeAllNode and
      MakeColumnRefNode in the order of the call; an argument the call leaves
      out is "". */
  datatype ExprNode =
    | AllNode(first: string, second: string)
    | ExprIdNode(name: string)
    | QueryExprNode(query: QueryNode)
    | ColumnRefNode(first: string, second: string, third: string)
    | BinaryExprNode(op: FnOperator, lhs: ExprNode, rhs: ExprNode)
    | UnaryExprNode(op: FnOperator, operand: ExprNode)
    | BetweenExprNode(expr: ExprNode, low: ExprNode, high: ExprNode, isNot: bool)
    | CallExprNode(functionName: string, args: Option<seq<ExprNode>>, over: Option<WindowDefNode>)
    | ConstNode(value: ConstValue)

  datatype OrderByNode = OrderByNode(orderExpressions: seq<ExprNode>, isAsc: seq<bool>)

  datatype FrameType = FrameRows | FrameRange | FrameRowsRange
  datatype BoundType =
    | Current | Preceding | OpenPreceding | PrecedingUnbound | Following | OpenFollowing | FollowingUnbound

  datatype FrameBound = FrameBound(boundType: BoundType, offset: Option<ExprNode>)
  datatype FrameExtent = FrameExtent(start: FrameBound, end: Option<FrameBound>)
  datatype FrameNode = FrameNode(frameType: FrameType, extent: FrameExtent, frameMaxSize: Option<ExprNode>)

  datatype WindowDefNode = WindowDefNode(
    name: Option<string>,
    unionTables: Option<seq<TableRefNode>>,
    partitions: Option<seq<ExprNode>>,
    orders: Option<OrderByNode>,
    frame: Option<FrameNode>,
    excludeCurrentTime: bool,
    instanceNotInWindow: bool)

  datatype JoinKind = JoinFull | JoinLeft | JoinRight | JoinLast | JoinInner

  datatype TableRefNode =
    | TableNode(tableName: string, alias: string)
    | JoinNode(left: TableRefNode, right: TableRefNode, joinType: JoinKind, condition: ExprNode, alias: string)
    | LastJoinNode(left: TableRefNode, right: TableRefNode, orderBy: Option<OrderByNode>,
                   condition: ExprNode, alias: string)
    | QueryRefNode(query: QueryNode, alias: string)

  datatype ResTargetNode = ResTargetNode(expr: ExprNode, name: string)
  datatype LimitNode = LimitNode(limitCount: int)

  datatype QueryNode =
    | SelectQueryNode(isDistinct: bool, selectList: seq<ResTargetNode>, tableRefs: Option<seq<TableRefNode>>,
                      where: Option<ExprNode>, groupBy: Option<seq<ExprNode>>, having: Option<ExprNode>,
                      order: Option<OrderByNode>, windows: Option<seq<WindowDefNode>>, limit: Option<LimitNode>)
    | UnionQueryNode(left: QueryNode, right: QueryNode, isAll: bool)

  /** What ConvertStmt produces: a query node or a node list (a BEGIN ... END block). */
  datatype SqlNode = QueryStmt(query: QueryNode) | NodeList(items: seq<SqlNode>)

  // DDL nodes

  datatype IndexOptionNode =
    | IndexKeyNode(keys: seq<string>)
    | IndexTsNode(tsColumn: string)
    | IndexTtlNode(ttl: seq<ConstValue>)
    | IndexTtlTypeNode(ttlType: string)
    | IndexVersionNode(versionColumn: string, versionCount: Option<int>)

  datatype TableElementNode =
    | ColumnDescNode(columnName: string, columnType: DataType, notNull: bool)
    | ColumnIndexNode(indexOptions: seq<IndexOptionNode>)

  datatype RoleType = Leader | Follower
  datatype PartitionMetaNode = PartitionMetaNode(role: RoleType, endpoint: string)

  datatype TableOptionNode =
    | PartitionNumNode(partitionNum: int)
    | ReplicaNumNode(replicaNum: int)
    | DistributionsNode(distribution: seq<PartitionMetaNode>)

  datatype CreateStmtNode = CreateStmtNode(
    tableName: string, ifNotExists: bool,
    columns: Option<seq<TableElementNode>>, tableOptions: Option<seq<TableOptionNode>>)

  datatype InputParameterNode = InputParameterNode(isConstant: bool, columnName: string, paramType: DataType)
  datatype CreateSpNode = CreateSpNode(spName: string, inputParameters: seq<InputParameterNode>, body: seq<SqlNode>)
}
