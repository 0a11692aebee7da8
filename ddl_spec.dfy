/** The meaning of the DDL part of the converter: CREATE TABLE (columns, indexes,
    table options) and CREATE PROCEDURE. An option whose name the converter does
    not know converts to `Ok(None)` (an OK status and no node) and is skipped by
    the list that holds it. */
module DdlSpec {
  import opened Wrappers
  import opened Syntax
  import opened Ast
  import opened Literals
  import ConvertSpec

  /** The nodes a list of optional nodes keeps: the present ones, in order. */
  function Present<T>(os: seq<Option<T>>): (r: seq<T>)
    ensures |r| <= |os|
  {
    if |os| == 0 then []
    else
      var last := os[|os| - 1];
      Present(os[..|os| - 1]) + (if last.Some? then [last.value] else [])
  }

  /** Present over a list extended by one optional node. */
  lemma PresentSnoc<T>(os: seq<Option<T>>, o: Option<T>)
    ensures Present(os + [o]) == Present(os) + (if o.Some? then [o.value] else [])
  {
    assert (os + [o])[..|os|] == os;
  }

  /** The endpoint a follower node records: the last follower, or "" when there is none. */
  function LastOrEmpty(names: seq<string>): string {
    if |names| == 0 then "" else names[|names| - 1]
  }

  // CREATE TABLE

  function ConvertCreateTableNode(s: CreateTableStatement): Result<CreateStmtNode> {
    var tableName :- PathExpressionToString(PathExpression(s.name));
    var columns :- ConvertElementList(s.tableElementList);
    var options :- ConvertOptionsList(s.optionsList);
    Ok(CreateStmtNode(tableName, s.isIfNotExists, columns, options))
  }

  function ConvertElementList(o: Option<TableElementList>): Result<Option<seq<TableElementNode>>> {
    match o
    case None => Ok(None)
    case Some(l) =>
      var cs :- ConvertTableElements(l.elements);
      Ok(Some(cs))
  }

  function ConvertTableElements(es: seq<TableElement>): (r: Result<seq<TableElementNode>>)
    ensures r.Ok? ==> |r.value| == |es|
  {
    if |es| == 0 then Ok([])
    else
      var c :- ConvertTableElement(es[0]);
      var rest :- ConvertTableElements(es[1..]);
      Ok([c] + rest)
  }

  function ConvertTableElement(el: TableElement): Result<TableElementNode> {
    match el
    case ColumnDefinition(name, schema) =>
      var notNull := NotNullColumnAttribute in schema.attributes;
      (match schema.shape
       case SimpleColumnSchema(typeName) =>
         var t :- StringToDataType(PathString(typeName));
         Ok(ColumnDescNode(name, t, notNull))
       case OtherColumnSchema(_) => Err(PlanError))
    case IndexDefinition(options) => ConvertColumnIndexNode(options)
    case OtherTableElement(_) => Err(PlanError)
  }

  function ConvertColumnIndexNode(options: OptionsList): Result<TableElementNode> {
    var converted :- ConvertIndexOptions(options.optionsEntries);
    Ok(ColumnIndexNode(Present(converted)))
  }

  /** Every index option converted in order; unknown ones give `None`. */
  function ConvertIndexOptions(es: seq<OptionsEntry>): (r: Result<seq<Option<IndexOptionNode>>>)
    ensures r.Ok? ==> |r.value| == |es|
  {
    if |es| == 0 then Ok([])
    else
      var o :- ConvertIndexOption(es[0]);
      var rest :- ConvertIndexOptions(es[1..]);
      Ok([o] + rest)
  }

  /** AstPathExpressionToString over a list of expressions. */
  function PathStrings(es: seq<Expr>): (r: Result<seq<string>>)
    ensures r.Ok? ==> |r.value| == |es|
  {
    if |es| == 0 then Ok([])
    else
      var s :- PathExpressionToString(es[0]);
      var rest :- PathStrings(es[1..]);
      Ok([s] + rest)
  }

  /** AstStringLiteralToString over a list of expressions. */
  function StringLiterals(es: seq<Expr>): (r: Result<seq<string>>)
    ensures r.Ok? <==> forall i | 0 <= i < |es| :: es[i].StringLiteral?
    ensures r.Ok? ==> |r.value| == |es| && forall i | 0 <= i < |es| :: r.value[i] == es[i].stringValue
    ensures r.Err? ==> r.code == PlanError
  {
    if |es| == 0 then Ok([])
    else
      var s :- StringLiteralToString(es[0]);
      var rest :- StringLiterals(es[1..]);
      Ok([s] + rest)
  }

  function ConvertIndexOption(entry: OptionsEntry): Result<Option<IndexOptionNode>> {
    var name := ToLower(entry.name);
    if name == "key" then
      var keys :- ConvertIndexKeys(entry.value);
      Ok(Some(IndexKeyNode(keys)))
    else if name == "ts" then
      var column :- PathExpressionToString(entry.value);
      Ok(Some(IndexTsNode(column)))
    else if name == "ttl" then
      var ttl :- ConvertTtl(entry.value);
      Ok(Some(IndexTtlNode(ttl)))
    else if name == "ttl_type" then
      var ttlType :- PathExpressionToString(entry.value);
      Ok(Some(IndexTtlTypeNode(ttlType)))
    else if name == "version" then
      var version :- ConvertVersion(entry.value);
      Ok(Some(version))
    else Ok(None)
  }

  /** The value of `key`: one column, or a non-empty parenthesised list of columns. */
  function ConvertIndexKeys(v: Expr): Result<seq<string>> {
    match v
    case PathExpression(_) =>
      var column :- PathExpressionToString(v);
      Ok([column])
    case StructConstructorWithParens(fields) =>
      if |fields| == 0 then Err(PlanError)
      else PathStrings(fields)
    case _ => Err(PlanError)
  }

  /** The value of `ttl`: an interval, a count, or the pair (interval, count). */
  function ConvertTtl(v: Expr): Result<seq<ConstValue>> {
    match v
    case IntervalLiteral(_) =>
      var iv :- IntervalLiteralToNum(v);
      Ok([UnitConst(iv.count, iv.unit)])
    case IntLiteral(_) =>
      var n :- IntLiteralToNum(v);
      Ok([UnitConst(n, Latest)])
    case StructConstructorWithParens(fields) =>
      if |fields| != 2 then Err(PlanError)
      else
        var iv :- IntervalLiteralToNum(fields[0]);
        var n :- IntLiteralToNum(fields[1]);
        Ok([UnitConst(iv.count, iv.unit), UnitConst(n, Latest)])
    case _ => Err(PlanError)
  }

  /** The value of `version`: a column, or the pair (column, count); the count
      is narrowed to a 32-bit int. */
  function ConvertVersion(v: Expr): Result<IndexOptionNode> {
    match v
    case PathExpression(_) =>
      var column :- PathExpressionToString(v);
      Ok(IndexVersionNode(column, None))
    case StructConstructorWithParens(fields) =>
      if |fields| != 2 then Err(PlanError)
      else
        var column :- PathExpressionToString(fields[0]);
        var n :- IntLiteralToNum(fields[1]);
        Ok(IndexVersionNode(column, Some(WrapInt32(n))))
    case _ => Err(PlanError)
  }

  function ConvertOptionsList(o: Option<OptionsList>): Result<Option<seq<TableOptionNode>>> {
    match o
    case None => Ok(None)
    case Some(l) =>
      var converted :- ConvertTableOptions(l.optionsEntries);
      Ok(Some(Present(converted)))
  }

  /** Every table option converted in order; unknown ones give `None`. */
  function ConvertTableOptions(es: seq<OptionsEntry>): (r: Result<seq<Option<TableOptionNode>>>)
    ensures r.Ok? ==> |r.value| == |es|
  {
    if |es| == 0 then Ok([])
    else
      var o :- ConvertTableOption(es[0]);
      var rest :- ConvertTableOptions(es[1..]);
      Ok([o] + rest)
  }

  function ConvertTableOption(entry: OptionsEntry): Result<Option<TableOptionNode>> {
    var name := ToLower(entry.name);
    if name == "partitionnum" then
      var n :- IntLiteralToNum(entry.value);
      Ok(Some(PartitionNumNode(n)))
    else if name == "replicanum" then
      var n :- IntLiteralToNum(entry.value);
      Ok(Some(ReplicaNumNode(n)))
    else if name == "distribution" then
      (match entry.value
       case ArrayConstructor(elements) =>
         var metas :- ConvertDistribution(elements);
         Ok(Some(DistributionsNode(metas)))
       case _ => Err(PlanError))
    else Ok(None)
  }

  /** The `distribution` array: each element adds a leader node and a follower node. */
  function ConvertDistribution(elements: seq<Expr>): (r: Result<seq<PartitionMetaNode>>)
    ensures r.Ok? <==> forall i | 0 <= i < |elements| :: ConvertDistributionElement(elements[i]).Ok?
    ensures r.Ok? ==>
      |r.value| == 2 * |elements|
      && forall i | 0 <= i < |elements| :: ConvertDistributionElement(elements[i]) == Ok(r.value[2 * i..2 * i + 2])
    ensures r.Err? ==> r.code == PlanError
  {
    if |elements| == 0 then Ok([])
    else
      var pair :- ConvertDistributionElement(elements[0]);
      var rest :- ConvertDistribution(elements[1..]);
      assert (pair + rest)[0..2] == pair;
      assert forall i | 1 <= i < |elements| ::
        elements[1..][i - 1] == elements[i] && (pair + rest)[2 * i..2 * i + 2] == rest[2 * (i - 1)..2 * (i - 1) + 2];
      Ok(pair + rest)
  }

  /** One `(leader, [followers])` element. A second field that is not an array
      is refused; see Findings.DistributionElementAsWritten. */
  function ConvertDistributionElement(e: Expr): (r: Result<seq<PartitionMetaNode>>)
    ensures r.Ok? <==>
      e.StructConstructorWithParens? && |e.fieldExpressions| == 2
      && e.fieldExpressions[0].StringLiteral? && e.fieldExpressions[1].ArrayConstructor?
      && forall k | 0 <= k < |e.fieldExpressions[1].elements| :: e.fieldExpressions[1].elements[k].StringLiteral?
    ensures r.Ok? ==>
      var followers := e.fieldExpressions[1].elements;
      r.value == [PartitionMetaNode(Leader, e.fieldExpressions[0].stringValue),
                  PartitionMetaNode(Follower, if |followers| == 0 then "" else followers[|followers| - 1].stringValue)]
    ensures r.Err? ==> r.code == PlanError
  {
    match e
    case StructConstructorWithParens(fields) =>
      if |fields| != 2 then Err(PlanError)
      else
        var leader :- StringLiteralToString(fields[0]);
        (match fields[1]
         case ArrayConstructor(fos) =>
           var followers :- StringLiterals(fos);
           Ok([PartitionMetaNode(Leader, leader), PartitionMetaNode(Follower, LastOrEmpty(followers))])
         case _ => Err(PlanError))
    case _ => Err(PlanError)
  }

  // CREATE PROCEDURE

  function ConvertCreateProcedureNode(s: CreateProcedureStatement): Result<CreateSpNode> {
    var spName :- PathExpressionToString(PathExpression(s.name));
    var params :- ConvertParameters(s.parameters);
    var body :- ConvertProcedureBody(s.body);
    Ok(CreateSpNode(spName, params, body))
  }

  function ConvertParameters(ps: seq<FunctionParameter>): (r: Result<seq<InputParameterNode>>)
    ensures r.Ok? ==> |r.value| == |ps|
  {
    if |ps| == 0 then Ok([])
    else
      var p :- ConvertParameter(ps[0]);
      var rest :- ConvertParameters(ps[1..]);
      Ok([p] + rest)
  }

  /** ConvertParamters: only a simple type is accepted. */
  function ConvertParameter(p: FunctionParameter): Result<InputParameterNode> {
    match p.paramType
    case None => Err(SqlError)
    case Some(OtherParamType(_)) => Err(SqlError)
    case Some(SimpleType(typeName)) =>
      var name :- PathExpressionToString(PathExpression(typeName));
      var t :- StringToDataType(name);
      Ok(InputParameterNode(p.isConstant, p.paramName, t))
  }

  /** The body must be a single statement that converts to a node list. */
  function ConvertProcedureBody(body: Script): Result<seq<SqlNode>> {
    if |body.statementList| != 1 then Err(SqlError)
    else
      var node :- ConvertSpec.ConvertStmt(body.statementList[0]);
      if node.NodeList? then Ok(node.items) else Err(SqlError)
  }
}
