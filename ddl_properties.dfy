/** What the DDL converter guarantees: unknown options are skipped without
    disturbing the others, the shapes of `key`, `ttl`, `version` and
    `distribution`, and the CREATE PROCEDURE body and parameters. */
module DdlProperties {
  import opened Wrappers
  import opened Syntax
  import opened Ast
  import opened Literals
  import opened DdlSpec
  import ExprProperties
  import QueryProperties
  import ConvertSpec

  // Skipping options that give no node

  lemma {:induction false} PresentAppend<T>(a: seq<Option<T>>, b: seq<Option<T>>)
    ensures Present(a + b) == Present(a) + Present(b)
    decreases |b|
  {
    if |b| == 0 {
      assert a + b == a;
    } else {
      var init, last := b[..|b| - 1], b[|b| - 1];
      PresentAppend(a, init);
      assert (a + b)[..|a + b| - 1] == a + init;
      assert (a + b)[|a + b| - 1] == last;
    }
  }

  /** Present keeps every node, in order, when each option produced one. */
  lemma {:induction false} PresentAllSome<T>(os: seq<Option<T>>)
    requires forall i | 0 <= i < |os| :: os[i].Some?
    ensures |Present(os)| == |os|
    ensures forall i | 0 <= i < |os| :: Present(os)[i] == os[i].value
    decreases |os|
  {
    if |os| > 0 {
      PresentAllSome(os[..|os| - 1]);
    }
  }

  /** The option list of a+b: the first failure in a, else the first failure in b,
      else the two converted lists one after the other. */
  lemma {:induction false} TableOptionsAppend(a: seq<OptionsEntry>, b: seq<OptionsEntry>)
    ensures ConvertTableOptions(a + b) ==
      (if ConvertTableOptions(a).Err? then ConvertTableOptions(a)
       else if ConvertTableOptions(b).Err? then ConvertTableOptions(b)
       else Ok(ConvertTableOptions(a).value + ConvertTableOptions(b).value))
    decreases |a|
  {
    if |a| == 0 {
      assert a + b == b;
      if ConvertTableOptions(b).Ok? {
        assert ConvertTableOptions(a).value + ConvertTableOptions(b).value == ConvertTableOptions(b).value;
      }
    } else {
      assert (a + b)[0] == a[0];
      assert (a + b)[1..] == a[1..] + b;
      TableOptionsAppend(a[1..], b);
      var head := ConvertTableOption(a[0]);
      var tail := ConvertTableOptions(a[1..]);
      if head.Ok? && tail.Ok? && ConvertTableOptions(b).Ok? {
        assert [head.value] + (tail.value + ConvertTableOptions(b).value)
            == ([head.value] + tail.value) + ConvertTableOptions(b).value;
      }
    }
  }

  lemma {:induction false} IndexOptionsAppend(a: seq<OptionsEntry>, b: seq<OptionsEntry>)
    ensures ConvertIndexOptions(a + b) ==
      (if ConvertIndexOptions(a).Err? then ConvertIndexOptions(a)
       else if ConvertIndexOptions(b).Err? then ConvertIndexOptions(b)
       else Ok(ConvertIndexOptions(a).value + ConvertIndexOptions(b).value))
    decreases |a|
  {
    if |a| == 0 {
      assert a + b == b;
      if ConvertIndexOptions(b).Ok? {
        assert ConvertIndexOptions(a).value + ConvertIndexOptions(b).value == ConvertIndexOptions(b).value;
      }
    } else {
      assert (a + b)[0] == a[0];
      assert (a + b)[1..] == a[1..] + b;
      IndexOptionsAppend(a[1..], b);
      var head := ConvertIndexOption(a[0]);
      var tail := ConvertIndexOptions(a[1..]);
      if head.Ok? && tail.Ok? && ConvertIndexOptions(b).Ok? {
        assert [head.value] + (tail.value + ConvertIndexOptions(b).value)
            == ([head.value] + tail.value) + ConvertIndexOptions(b).value;
      }
    }
  }

  /** Dropping an absent node changes nothing. */
  lemma PresentSkipNone<T>(a: seq<Option<T>>, c: seq<Option<T>>)
    ensures Present(a + [None] + c) == Present(a + c)
  {
    var none: Option<T> := None;
    PresentAppend(a + [none], c);
    PresentAppend(a, [none]);
    PresentAppend(a, c);
    assert [none][..0] == [];
    assert Present([none]) == [];
    assert Present(a) + [] == Present(a);
  }

  predicate KnownTableOption(name: string) {
    ToLower(name) in {"partitionnum", "replicanum", "distribution"}
  }

  predicate KnownIndexOption(name: string) {
    ToLower(name) in {"key", "ts", "ttl", "ttl_type", "version"}
  }

  /** A table option with an unknown name is accepted and leaves no trace:
      the options list is the one written without it. */
  lemma UnknownTableOptionSkipped(pre: seq<OptionsEntry>, e: OptionsEntry, post: seq<OptionsEntry>)
    requires !KnownTableOption(e.name)
    ensures ConvertTableOption(e) == Ok(None)
    ensures ConvertOptionsList(Some(OptionsList(pre + [e] + post))) == ConvertOptionsList(Some(OptionsList(pre + post)))
  {
    var none: Option<TableOptionNode> := None;
    assert ConvertTableOptions([e]) == Ok([none]) by {
      assert [e][1..] == [];
      assert [none] + [] == [none];
    }
    TableOptionsAppend(pre, [e]);
    TableOptionsAppend(pre + [e], post);
    TableOptionsAppend(pre, post);
    if ConvertTableOptions(pre).Ok? && ConvertTableOptions(post).Ok? {
      var a, c := ConvertTableOptions(pre).value, ConvertTableOptions(post).value;
      assert ConvertTableOptions(pre + [e] + post) == Ok(a + [none] + c);
      assert ConvertTableOptions(pre + post) == Ok(a + c);
      PresentSkipNone(a, c);
    }
  }

  /** An index option with an unknown name is accepted and leaves no trace. */
  lemma UnknownIndexOptionSkipped(pre: seq<OptionsEntry>, e: OptionsEntry, post: seq<OptionsEntry>)
    requires !KnownIndexOption(e.name)
    ensures ConvertIndexOption(e) == Ok(None)
    ensures ConvertColumnIndexNode(OptionsList(pre + [e] + post)) == ConvertColumnIndexNode(OptionsList(pre + post))
  {
    var none: Option<IndexOptionNode> := None;
    assert ConvertIndexOptions([e]) == Ok([none]) by {
      assert [e][1..] == [];
      assert [none] + [] == [none];
    }
    IndexOptionsAppend(pre, [e]);
    IndexOptionsAppend(pre + [e], post);
    IndexOptionsAppend(pre, post);
    if ConvertIndexOptions(pre).Ok? && ConvertIndexOptions(post).Ok? {
      var a, c := ConvertIndexOptions(pre).value, ConvertIndexOptions(post).value;
      assert ConvertIndexOptions(pre + [e] + post) == Ok(a + [none] + c);
      assert ConvertIndexOptions(pre + post) == Ok(a + c);
      PresentSkipNone(a, c);
    }
  }

  /** A known option always produces a node when it converts. */
  lemma KnownOptionsProduceNodes(e: OptionsEntry)
    ensures KnownTableOption(e.name) && ConvertTableOption(e).Ok? ==> ConvertTableOption(e).value.Some?
    ensures KnownIndexOption(e.name) && ConvertIndexOption(e).Ok? ==> ConvertIndexOption(e).value.Some?
    ensures !KnownIndexOption(e.name) ==> ConvertIndexOption(e) == Ok(None)
  {
  }

  /** Option names are matched without regard to letter case. */
  lemma OptionNameCase(name: string, v: Expr)
    ensures ConvertTableOption(OptionsEntry(name, v)) == ConvertTableOption(OptionsEntry(ToLower(name), v))
    ensures ConvertIndexOption(OptionsEntry(name, v)) == ConvertIndexOption(OptionsEntry(ToLower(name), v))
  {
    ToLowerIdempotent(name);
  }

  lemma ToLowerIdempotent(s: string)
    ensures ToLower(ToLower(s)) == ToLower(s)
  {
    assert forall i | 0 <= i < |s| :: LowerChar(LowerChar(s[i])) == LowerChar(s[i]);
  }

  // Index options

  /** `key` gives one column for a path and one column per field, in order, for a
      non-empty parenthesised list; anything else is a kPlanError. */
  lemma {:induction false} PathStringsPointwise(es: seq<Expr>)
    ensures PathStrings(es).Ok? <==> forall i | 0 <= i < |es| :: es[i].PathExpression?
    ensures PathStrings(es).Ok? ==> forall i | 0 <= i < |es| :: PathStrings(es).value[i] == PathString(es[i].names)
    ensures PathStrings(es).Err? ==> PathStrings(es).code == PlanError
  {
    if |es| > 0 {
      PathStringsPointwise(es[1..]);
      assert forall i | 1 <= i < |es| :: es[1..][i - 1] == es[i];
    }
  }

  lemma IndexKeysShape(v: Expr)
    ensures ConvertIndexKeys(v).Ok? ==> |ConvertIndexKeys(v).value| >= 1
    ensures v.PathExpression? ==> ConvertIndexKeys(v) == Ok([PathString(v.names)])
    ensures v.StructConstructorWithParens? ==>
      (ConvertIndexKeys(v).Ok? <==>
         |v.fieldExpressions| >= 1 && forall i | 0 <= i < |v.fieldExpressions| :: v.fieldExpressions[i].PathExpression?)
    ensures v.StructConstructorWithParens? && ConvertIndexKeys(v).Ok? ==>
      |ConvertIndexKeys(v).value| == |v.fieldExpressions|
      && forall i | 0 <= i < |v.fieldExpressions| ::
           ConvertIndexKeys(v).value[i] == PathString(v.fieldExpressions[i].names)
    ensures ConvertIndexKeys(v).Err? ==> ConvertIndexKeys(v).code == PlanError
  {
    if v.StructConstructorWithParens? {
      PathStringsPointwise(v.fieldExpressions);
    }
  }

  /** `ttl` is one of four shapes: an interval (one constant with a time unit),
      a count (one constant of unit Latest), or the pair (interval, count) (the
      interval constant, then the count with unit Latest); anything else is a kPlanError. */
  lemma TtlShapes(v: Expr)
    ensures !(v.IntervalLiteral? || v.IntLiteral? || v.StructConstructorWithParens?) ==> ConvertTtl(v) == Err(PlanError)
    ensures v.StructConstructorWithParens? && |v.fieldExpressions| != 2 ==> ConvertTtl(v) == Err(PlanError)
    ensures v.IntervalLiteral? ==> (ConvertTtl(v).Ok? <==> IntervalLiteralToNum(v).Ok?)
    ensures v.IntLiteral? ==> (ConvertTtl(v).Ok? <==> IntLiteralToNum(v).Ok?)
    ensures v.StructConstructorWithParens? && |v.fieldExpressions| == 2 ==>
      (ConvertTtl(v).Ok? <==> IntervalLiteralToNum(v.fieldExpressions[0]).Ok? && IntLiteralToNum(v.fieldExpressions[1]).Ok?)
    ensures ConvertTtl(v).Ok? ==>
      var ttl := ConvertTtl(v).value;
      (v.IntervalLiteral? ==>
         var iv := IntervalLiteralToNum(v).value;
         ttl == [UnitConst(iv.count, iv.unit)] && iv.unit in {Day, Hour, Minute, Second})
      && (v.IntLiteral? ==> ttl == [UnitConst(IntLiteralToNum(v).value, Latest)])
      && (v.StructConstructorWithParens? ==>
            var iv := IntervalLiteralToNum(v.fieldExpressions[0]).value;
            ttl == [UnitConst(iv.count, iv.unit), UnitConst(IntLiteralToNum(v.fieldExpressions[1]).value, Latest)]
            && iv.unit in {Day, Hour, Minute, Second})
  {
  }

  /** `ttl=(<a>d, <b>)` is a days interval of a together with a count of b. */
  lemma TtlDaysAndCount(a: string, x: int, b: string, y: int)
    requires |a| >= 1 && StringToBigint(a) == Some(x)
    requires |b| >= 1 && AllDigits(b) && StringToBigint(b) == Some(y)
    ensures ConvertTtl(StructConstructorWithParens([IntervalLiteral(a + "d"), IntLiteral(b)]))
         == Ok([UnitConst(x, Day), UnitConst(y, Latest)])
  {
    var image := a + "d";
    assert image[..|image| - 1] == a;
    assert image[|image| - 1] == 'd';
    assert IsDigit(b[|b| - 1]);
    assert IntervalUnit(image) == Some(Day);
    assert !IsLong(b);
    assert IntervalLiteralToNum(IntervalLiteral(image)) == Ok(Interval(x, Day));
    assert IntLiteralToNum(IntLiteral(b)) == Ok(y);
  }

  /** `version`: the count of (column, count) is truncated to 32 bits. */
  lemma VersionShape(v: Expr)
    ensures v.PathExpression? ==> ConvertVersion(v) == Ok(IndexVersionNode(PathString(v.names), None))
    ensures ConvertVersion(v).Ok? ==> ConvertVersion(v).value.IndexVersionNode?
    ensures ConvertVersion(v).Ok? && v.StructConstructorWithParens? ==>
      var n := ConvertVersion(v).value;
      n.versionCount.Some? && Int32Min <= n.versionCount.value <= Int32Max
      && n.versionCount.value == WrapInt32(IntLiteralToNum(v.fieldExpressions[1]).value)
    ensures !(v.PathExpression? || v.StructConstructorWithParens?) ==> ConvertVersion(v) == Err(PlanError)
  {
  }

  /** `version=(c, n)` for a decimal n in int64 range keeps n modulo 2^32, as a signed 32-bit value. */
  lemma VersionCount(column: string, n: nat)
    requires n <= Int64Max
    ensures ConvertVersion(StructConstructorWithParens([PathExpression([column]), IntLiteral(DecimalString(n))]))
         == Ok(IndexVersionNode(column, Some(WrapInt32(n))))
  {
    ExprProperties.DecimalNotHexNorLong(n);
    StringToBigintDecimal(n);
  }

  /** A version count of 2^32 + k is stored as k. */
  lemma VersionCountNarrowed(column: string, k: nat)
    requires k <= Int32Max
    ensures ConvertVersion(StructConstructorWithParens([PathExpression([column]), IntLiteral(DecimalString(0x1_0000_0000 + k))]))
         == Ok(IndexVersionNode(column, Some(k)))
  {
    VersionCount(column, 0x1_0000_0000 + k);
    WrapAbove(k);
  }

  lemma WrapAbove(k: nat)
    requires k <= Int32Max
    ensures WrapInt32(0x1_0000_0000 + k) == k
  {
    var x := k - Int32Min;
    assert 0 <= x < 0x1_0000_0000;
    assert (0x1_0000_0000 + x) % 0x1_0000_0000 == x;
  }

  // Table options

  /** `distribution`: one leader node then one follower node per element. The
      leader's endpoint is the element's first string; the follower's is the
      last string of its follower list, or "" when that list is empty. Any
      other element is a kPlanError. */
  lemma DistributionShape(elements: seq<Expr>)
    ensures ConvertDistribution(elements).Ok? <==>
      forall i | 0 <= i < |elements| ::
        elements[i].StructConstructorWithParens? && |elements[i].fieldExpressions| == 2
        && elements[i].fieldExpressions[0].StringLiteral? && elements[i].fieldExpressions[1].ArrayConstructor?
        && forall k | 0 <= k < |elements[i].fieldExpressions[1].elements| ::
             elements[i].fieldExpressions[1].elements[k].StringLiteral?
    ensures ConvertDistribution(elements).Ok? ==>
      var metas := ConvertDistribution(elements).value;
      |metas| == 2 * |elements|
      && forall i | 0 <= i < |elements| ::
           var fields := elements[i].fieldExpressions;
           var followers := fields[1].elements;
           metas[2 * i] == PartitionMetaNode(Leader, fields[0].stringValue)
           && metas[2 * i + 1] == PartitionMetaNode(Follower, if |followers| == 0 then "" else followers[|followers| - 1].stringValue)
    ensures ConvertDistribution(elements).Err? ==> ConvertDistribution(elements).code == PlanError
  {
    if ConvertDistribution(elements).Ok? {
      var metas := ConvertDistribution(elements).value;
      forall i | 0 <= i < |elements|
        ensures metas[2 * i] == metas[2 * i..2 * i + 2][0] && metas[2 * i + 1] == metas[2 * i..2 * i + 2][1]
      {
      }
    }
  }

  /** Of several followers only the last is kept, and no follower gives "". */
  lemma DistributionLastFollower(leader: string, f1: string, f2: string)
    ensures ConvertDistribution([StructConstructorWithParens([StringLiteral(leader),
                                   ArrayConstructor([StringLiteral(f1), StringLiteral(f2)])])])
         == Ok([PartitionMetaNode(Leader, leader), PartitionMetaNode(Follower, f2)])
    ensures ConvertDistribution([StructConstructorWithParens([StringLiteral(leader), ArrayConstructor([])])])
         == Ok([PartitionMetaNode(Leader, leader), PartitionMetaNode(Follower, "")])
  {
    var e1 := StructConstructorWithParens([StringLiteral(leader), ArrayConstructor([StringLiteral(f1), StringLiteral(f2)])]);
    var e2 := StructConstructorWithParens([StringLiteral(leader), ArrayConstructor([])]);
    var fs := [StringLiteral(f1), StringLiteral(f2)];
    assert forall k | 0 <= k < |fs| :: fs[k].StringLiteral?;
    assert [e1][0] == e1 && [e2][0] == e2;
    DistributionShape([e1]);
    DistributionShape([e2]);
    var m1, m2 := ConvertDistribution([e1]).value, ConvertDistribution([e2]).value;
    assert m1 == [m1[0], m1[1]];
    assert m2 == [m2[0], m2[1]];
  }

  /** The intended behaviour of an element whose second field is not an array
      of followers: a kPlanError. */
  lemma DistributionElementWithoutFollowerList(e: Expr)
    requires e.StructConstructorWithParens? && |e.fieldExpressions| == 2
    requires !e.fieldExpressions[1].ArrayConstructor?
    ensures ConvertDistributionElement(e) == Err(PlanError)
  {
  }

  /** `partitionnum` and `replicanum` take an integer literal; `distribution` an array. */
  lemma TableOptionValues(e: OptionsEntry)
    ensures ToLower(e.name) == "partitionnum" && ConvertTableOption(e).Ok? ==>
      ConvertTableOption(e).value == Some(PartitionNumNode(IntLiteralToNum(e.value).value))
    ensures ToLower(e.name) == "replicanum" && ConvertTableOption(e).Ok? ==>
      ConvertTableOption(e).value == Some(ReplicaNumNode(IntLiteralToNum(e.value).value))
    ensures ToLower(e.name) in {"partitionnum", "replicanum"} && !e.value.IntLiteral? ==> ConvertTableOption(e) == Err(PlanError)
    ensures ToLower(e.name) == "distribution" && !e.value.ArrayConstructor? ==> ConvertTableOption(e) == Err(PlanError)
  {
  }

  // CREATE TABLE

  lemma {:induction false} TableElementsAsMap(es: seq<TableElement>)
    ensures ConvertTableElements(es) == MapResult(ConvertTableElement, es)
  {
    if |es| > 0 {
      TableElementsAsMap(es[1..]);
    }
  }

  lemma {:induction false} TableOptionsAsMap(es: seq<OptionsEntry>)
    ensures ConvertTableOptions(es) == MapResult(ConvertTableOption, es)
  {
    if |es| > 0 {
      TableOptionsAsMap(es[1..]);
    }
  }

  /** CREATE TABLE keeps the table path and the IF NOT EXISTS flag; column i is
      the conversion of table element i; the options are the nodes the options
      produced, in order, each option converted at its own position. */
  lemma CreateTableShape(s: CreateTableStatement)
    ensures ConvertCreateTableNode(s).Ok? ==>
      var n := ConvertCreateTableNode(s).value;
      n.tableName == PathString(s.name) && n.ifNotExists == s.isIfNotExists
      && (n.columns.Some? <==> s.tableElementList.Some?)
      && (n.columns.Some? ==>
            var es := s.tableElementList.value.elements;
            |n.columns.value| == |es|
            && forall i | 0 <= i < |es| :: ConvertTableElement(es[i]) == Ok(n.columns.value[i]))
      && (n.tableOptions.Some? <==> s.optionsList.Some?)
      && (n.tableOptions.Some? ==>
            var entries := s.optionsList.value.optionsEntries;
            ConvertTableOptions(entries).Ok?
            && n.tableOptions.value == Present(ConvertTableOptions(entries).value)
            && forall i | 0 <= i < |entries| :: ConvertTableOption(entries[i]) == Ok(ConvertTableOptions(entries).value[i]))
  {
    if s.tableElementList.Some? {
      TableElementsAsMap(s.tableElementList.value.elements);
      MapPointwise(ConvertTableElement, s.tableElementList.value.elements);
    }
    if s.optionsList.Some? {
      TableOptionsAsMap(s.optionsList.value.optionsEntries);
      MapPointwise(ConvertTableOption, s.optionsList.value.optionsEntries);
    }
  }

  /** A column keeps its name and NOT NULL flag; its type must be a simple, known type. */
  lemma ColumnDefinitionShape(name: string, schema: ColumnSchema)
    ensures !schema.shape.SimpleColumnSchema? ==> ConvertTableElement(ColumnDefinition(name, schema)) == Err(PlanError)
    ensures schema.shape.SimpleColumnSchema? ==>
      (ConvertTableElement(ColumnDefinition(name, schema)).Ok? <==> StringToDataType(PathString(schema.shape.typeName)).Ok?)
    ensures ConvertTableElement(ColumnDefinition(name, schema)).Ok? ==>
      ConvertTableElement(ColumnDefinition(name, schema)).value
        == ColumnDescNode(name, StringToDataType(PathString(schema.shape.typeName)).value,
                          NotNullColumnAttribute in schema.attributes)
  {
  }

  // CREATE PROCEDURE

  /** A parameter must have a simple type; it keeps its name and CONST flag. */
  lemma ParameterShape(p: FunctionParameter)
    ensures p.paramType.None? ==> ConvertParameter(p) == Err(SqlError)
    ensures p.paramType.Some? && p.paramType.value.OtherParamType? ==> ConvertParameter(p) == Err(SqlError)
    ensures ConvertParameter(p).Ok? ==>
      ConvertParameter(p).value.columnName == p.paramName && ConvertParameter(p).value.isConstant == p.isConstant
      && ConvertParameter(p).value.paramType == StringToDataType(PathString(p.paramType.value.typeName)).value
  {
  }

  /** The body must be exactly one BEGIN ... END block; node i of the body is
      the conversion of the block's statement i. */
  lemma ProcedureBodyShape(body: Script)
    ensures |body.statementList| != 1 ==> ConvertProcedureBody(body) == Err(SqlError)
    ensures |body.statementList| == 1 && !body.statementList[0].BeginEndBlock? ==> ConvertProcedureBody(body).Err?
    ensures ConvertProcedureBody(body).Ok? ==>
      var block := body.statementList[0];
      block.BeginEndBlock?
      && |ConvertProcedureBody(body).value| == |block.statementList|
      && forall i | 0 <= i < |block.statementList| ::
           ConvertSpec.ConvertStmt(block.statementList[i]) == Ok(ConvertProcedureBody(body).value[i])
  {
    if |body.statementList| == 1 && body.statementList[0].BeginEndBlock? {
      QueryProperties.StatementShapes(body.statementList[0]);
    }
  }

  lemma {:induction false} ParametersAsMap(ps: seq<FunctionParameter>)
    ensures ConvertParameters(ps) == MapResult(ConvertParameter, ps)
  {
    if |ps| > 0 {
      ParametersAsMap(ps[1..]);
    }
  }

  /** CREATE PROCEDURE keeps its name; parameter i is the conversion of
      parameter i; the body is the converted BEGIN ... END block. A failing
      parameter list fails with its first failing parameter's status. */
  lemma CreateProcedureShape(s: CreateProcedureStatement)
    ensures ConvertParameters(s.parameters).Err? ==>
      exists i | 0 <= i < |s.parameters| ::
        (forall j | 0 <= j < i :: ConvertParameter(s.parameters[j]).Ok?)
        && ConvertParameter(s.parameters[i]).Err?
        && ConvertCreateProcedureNode(s) == Err(ConvertParameter(s.parameters[i]).code)
    ensures ConvertCreateProcedureNode(s).Ok? ==>
      var n := ConvertCreateProcedureNode(s).value;
      n.spName == PathString(s.name)
      && |n.inputParameters| == |s.parameters|
      && (forall i | 0 <= i < |s.parameters| :: ConvertParameter(s.parameters[i]) == Ok(n.inputParameters[i]))
      && ConvertProcedureBody(s.body) == Ok(n.body)
  {
    ParametersAsMap(s.parameters);
    MapPointwise(ConvertParameter, s.parameters);
    MapFirstFailure(ConvertParameter, s.parameters);
  }
}
