/** The DDL converter as the C++ code runs it: the element, option, key,
    distribution and parameter loops, and the skipping of options that convert
    to no node. Each method is proved to produce what DdlSpec defines. */
module DdlConverter {
  import opened Wrappers
  import opened Syntax
  import opened Ast
  import opened Literals
  import D = DdlSpec
  import Converter

  method ConvertCreateTableNode(s: CreateTableStatement) returns (r: Result<CreateStmtNode>)
    ensures r == D.ConvertCreateTableNode(s)
  {
    // A path expression always converts, so this CHECK_STATUS cannot fail.
    var tableName := PathExpressionToString(PathExpression(s.name)).value;
    var columns: Option<seq<TableElementNode>> := None;
    if s.tableElementList.Some? {
      var cs :- ConvertTableElements(s.tableElementList.value.elements);
      columns := Some(cs);
    }
    var options: Option<seq<TableOptionNode>> := None;
    if s.optionsList.Some? {
      var os :- ConvertTableOptions(s.optionsList.value.optionsEntries);
      options := Some(os);
    }
    r := Ok(CreateStmtNode(tableName, s.isIfNotExists, columns, options));
  }

  /** The loop over the table element list. */
  method ConvertTableElements(es: seq<TableElement>) returns (r: Result<seq<TableElementNode>>)
    ensures r == D.ConvertTableElements(es)
  {
    var list: seq<TableElementNode> := [];
    var i := 0;
    while i < |es|
      invariant 0 <= i <= |es|
      invariant D.ConvertTableElements(es) == Prepend(list, D.ConvertTableElements(es[i..]))
      decreases |es| - i
    {
      assert es[i..][1..] == es[i + 1..];
      var c :- ConvertTableElement(es[i]);
      PrependAppend(list, c, D.ConvertTableElements(es[i + 1..]));
      list := list + [c];
      i := i + 1;
    }
    assert es[i..] == [];
    r := Ok(list);
  }

  /** The loop over the table options: an option that converts to no node is skipped. */
  method ConvertTableOptions(es: seq<OptionsEntry>) returns (r: Result<seq<TableOptionNode>>)
    ensures D.ConvertTableOptions(es).Err? ==> r == Err(D.ConvertTableOptions(es).code)
    ensures D.ConvertTableOptions(es).Ok? ==> r == Ok(D.Present(D.ConvertTableOptions(es).value))
  {
    ghost var converted: seq<Option<TableOptionNode>> := [];
    var list: seq<TableOptionNode> := [];
    var i := 0;
    while i < |es|
      invariant 0 <= i <= |es|
      invariant D.ConvertTableOptions(es) == Prepend(converted, D.ConvertTableOptions(es[i..]))
      invariant list == D.Present(converted)
      decreases |es| - i
    {
      assert es[i..][1..] == es[i + 1..];
      var node :- ConvertTableOption(es[i]);
      PrependAppend(converted, node, D.ConvertTableOptions(es[i + 1..]));
      if node.Some? {
        list := list + [node.value];
      }
      D.PresentSnoc(converted, node);
      converted := converted + [node];
      i := i + 1;
    }
    assert es[i..] == [];
    r := Ok(list);
  }

  method ConvertTableElement(el: TableElement) returns (r: Result<TableElementNode>)
    ensures r == D.ConvertTableElement(el)
  {
    match el
    case ColumnDefinition(name, schema) =>
      var notNull := NotNullColumnAttribute in schema.attributes;
      if !schema.shape.SimpleColumnSchema? {
        return Err(PlanError);
      }
      var t :- StringToDataType(PathString(schema.shape.typeName));
      r := Ok(ColumnDescNode(name, t, notNull));
    case IndexDefinition(options) =>
      r := ConvertColumnIndexNode(options);
    case OtherTableElement(_) =>
      r := Err(PlanError);
  }

  /** The loop over an index's options: an option that converts to no node is skipped. */
  method ConvertColumnIndexNode(options: OptionsList) returns (r: Result<TableElementNode>)
    ensures r == D.ConvertColumnIndexNode(options)
  {
    var es := options.optionsEntries;
    ghost var converted: seq<Option<IndexOptionNode>> := [];
    var list: seq<IndexOptionNode> := [];
    var i := 0;
    while i < |es|
      invariant 0 <= i <= |es|
      invariant D.ConvertIndexOptions(es) == Prepend(converted, D.ConvertIndexOptions(es[i..]))
      invariant list == D.Present(converted)
      decreases |es| - i
    {
      assert es[i..][1..] == es[i + 1..];
      var node :- ConvertIndexOption(es[i]);
      PrependAppend(converted, node, D.ConvertIndexOptions(es[i + 1..]));
      if node.Some? {
        list := list + [node.value];
      }
      D.PresentSnoc(converted, node);
      converted := converted + [node];
      i := i + 1;
    }
    assert es[i..] == [];
    r := Ok(ColumnIndexNode(list));
  }

  method ConvertIndexOption(entry: OptionsEntry) returns (r: Result<Option<IndexOptionNode>>)
    ensures r == D.ConvertIndexOption(entry)
  {
    var name := ToLower(entry.name);
    if name == "key" {
      var keys :- ConvertIndexKeys(entry.value);
      r := Ok(Some(IndexKeyNode(keys)));
    } else if name == "ts" {
      var column :- PathExpressionToString(entry.value);
      r := Ok(Some(IndexTsNode(column)));
    } else if name == "ttl" {
      var ttl :- D.ConvertTtl(entry.value);
      r := Ok(Some(IndexTtlNode(ttl)));
    } else if name == "ttl_type" {
      var ttlType :- PathExpressionToString(entry.value);
      r := Ok(Some(IndexTtlTypeNode(ttlType)));
    } else if name == "version" {
      var version :- D.ConvertVersion(entry.value);
      r := Ok(Some(version));
    } else {
      r := Ok(None);
    }
  }

  /** The `key` value: the first column, then AddKey for each further one. */
  method ConvertIndexKeys(v: Expr) returns (r: Result<seq<string>>)
    ensures r == D.ConvertIndexKeys(v)
  {
    match v
    case PathExpression(_) =>
      var column := PathExpressionToString(v).value;
      r := Ok([column]);
    case StructConstructorWithParens(fields) =>
      if |fields| == 0 {
        return Err(PlanError);
      }
      var first :- PathExpressionToString(fields[0]);
      var keys := [first];
      var i := 1;
      while i < |fields|
        invariant 1 <= i <= |fields|
        invariant D.PathStrings(fields) == Prepend(keys, D.PathStrings(fields[i..]))
        decreases |fields| - i
      {
        assert fields[i..][1..] == fields[i + 1..];
        var key :- PathExpressionToString(fields[i]);
        PrependAppend(keys, key, D.PathStrings(fields[i + 1..]));
        keys := keys + [key];
        i := i + 1;
      }
      assert fields[i..] == [];
      r := Ok(keys);
    case _ =>
      r := Err(PlanError);
  }

  method ConvertTableOption(entry: OptionsEntry) returns (r: Result<Option<TableOptionNode>>)
    ensures r == D.ConvertTableOption(entry)
  {
    var name := ToLower(entry.name);
    if name == "partitionnum" {
      var n :- IntLiteralToNum(entry.value);
      r := Ok(Some(PartitionNumNode(n)));
    } else if name == "replicanum" {
      var n :- IntLiteralToNum(entry.value);
      r := Ok(Some(ReplicaNumNode(n)));
    } else if name == "distribution" {
      if !entry.value.ArrayConstructor? {
        return Err(PlanError);
      }
      var metas :- ConvertDistribution(entry.value.elements);
      r := Ok(Some(DistributionsNode(metas)));
    } else {
      r := Ok(None);
    }
  }

  /** The loop over the distribution array: a leader node, then a follower node,
      per element. */
  method ConvertDistribution(elements: seq<Expr>) returns (r: Result<seq<PartitionMetaNode>>)
    ensures r == D.ConvertDistribution(elements)
  {
    var list: seq<PartitionMetaNode> := [];
    var i := 0;
    while i < |elements|
      invariant 0 <= i <= |elements|
      invariant D.ConvertDistribution(elements) == Prepend(list, D.ConvertDistribution(elements[i..]))
      decreases |elements| - i
    {
      assert elements[i..][1..] == elements[i + 1..];
      var pair :- ConvertDistributionElement(elements[i]);
      PrependConcat(list, pair, D.ConvertDistribution(elements[i + 1..]));
      list := list + pair;
      i := i + 1;
    }
    assert elements[i..] == [];
    r := Ok(list);
  }

  /** One element of the distribution array: the leader node, then the
      follower node. */
  method ConvertDistributionElement(e: Expr) returns (r: Result<seq<PartitionMetaNode>>)
    ensures r == D.ConvertDistributionElement(e)
  {
    if !e.StructConstructorWithParens? || |e.fieldExpressions| != 2 {
      return Err(PlanError);
    }
    var leader :- StringLiteralToString(e.fieldExpressions[0]);
    var followerList := e.fieldExpressions[1];
    if !followerList.ArrayConstructor? {
      return Err(PlanError);
    }
    var followers :- ConvertFollowers(followerList.elements);
    r := Ok([PartitionMetaNode(Leader, leader), PartitionMetaNode(Follower, D.LastOrEmpty(followers))]);
  }

  /** The loop over one element's followers. */
  method ConvertFollowers(fos: seq<Expr>) returns (r: Result<seq<string>>)
    ensures r == D.StringLiterals(fos)
  {
    var followers: seq<string> := [];
    var j := 0;
    while j < |fos|
      invariant 0 <= j <= |fos|
      invariant D.StringLiterals(fos) == Prepend(followers, D.StringLiterals(fos[j..]))
      decreases |fos| - j
    {
      assert fos[j..][1..] == fos[j + 1..];
      var follower :- StringLiteralToString(fos[j]);
      PrependAppend(followers, follower, D.StringLiterals(fos[j + 1..]));
      followers := followers + [follower];
      j := j + 1;
    }
    assert fos[j..] == [];
    r := Ok(followers);
  }

  method ConvertCreateProcedureNode(s: CreateProcedureStatement) returns (r: Result<CreateSpNode>)
    ensures r == D.ConvertCreateProcedureNode(s)
  {
    var spName := PathExpressionToString(PathExpression(s.name)).value;
    var ps := s.parameters;
    var params: seq<InputParameterNode> := [];
    var i := 0;
    while i < |ps|
      invariant 0 <= i <= |ps|
      invariant D.ConvertParameters(ps) == Prepend(params, D.ConvertParameters(ps[i..]))
      decreases |ps| - i
    {
      assert ps[i..][1..] == ps[i + 1..];
      var p :- D.ConvertParameter(ps[i]);
      PrependAppend(params, p, D.ConvertParameters(ps[i + 1..]));
      params := params + [p];
      i := i + 1;
    }
    assert ps[i..] == [];
    var body :- ConvertProcedureBody(s.body);
    r := Ok(CreateSpNode(spName, params, body));
  }

  method ConvertProcedureBody(body: Script) returns (r: Result<seq<SqlNode>>)
    ensures r == D.ConvertProcedureBody(body)
  {
    if |body.statementList| != 1 {
      return Err(SqlError);
    }
    var node :- Converter.ConvertStmt(body.statementList[0]);
    if !node.NodeList? {
      return Err(SqlError);
    }
    r := Ok(node.items);
  }
}
