/** The literal converter: the helpers ASTIntLiteralToNum, ASTIntervalLIteralToNum,
    AstPathExpressionToString and AstStringLiteralToString, the literal cases of
    ConvertExprNode, and stand-ins for the runtime's string-to-number primitives. */
module Literals {
  import opened Wrappers
  import opened Syntax
  import opened Ast

  const Int32Min: int := -0x8000_0000
  const Int32Max: int := 0x7fff_ffff
  const Int64Min: int := -0x8000_0000_0000_0000
  const Int64Max: int := 0x7fff_ffff_ffff_ffff

  predicate IsDigit(c: char) {
    '0' <= c <= '9'
  }

  predicate AllDigits(s: string) {
    forall i | 0 <= i < |s| :: IsDigit(s[i])
  }

  function DigitValue(c: char): nat
    requires IsDigit(c)
  {
    c as int - '0' as int
  }

  function DigitsValue(s: string): nat
    requires AllDigits(s)
  {
    if |s| == 0 then 0 else 10 * DigitsValue(s[..|s| - 1]) + DigitValue(s[|s| - 1])
  }

  /** Stand-in for the runtime primitive string_to_bigint: an optional sign
      followed by decimal digits, accepted when the value fits in int64;
      `None` is the primitive's is_null result. */
  function StringToBigint(s: string): (r: Option<int>)
    ensures r.Some? ==> Int64Min <= r.value <= Int64Max
  {
    var signed := |s| > 0 && (s[0] == '-' || s[0] == '+');
    var digits := if signed then s[1..] else s;
    if |digits| == 0 || !AllDigits(digits) then None
    else
      var magnitude: int := DigitsValue(digits);
      var v: int := if signed && s[0] == '-' then 0 - magnitude else magnitude;
      if Int64Min <= v <= Int64Max then Some(v) else None
  }

  /** The decimal text of a natural number (what the parser puts in an image). */
  function DecimalString(n: nat): (s: string)
    ensures |s| >= 1 && AllDigits(s)
  {
    if n < 10 then [('0' as int + n) as char]
    else DecimalString(n / 10) + [('0' as int + n % 10) as char]
  }

  lemma {:induction false} DecimalStringValue(n: nat)
    ensures DigitsValue(DecimalString(n)) == n
  {
    var s := DecimalString(n);
    if n >= 10 {
      DecimalStringValue(n / 10);
      assert s[..|s| - 1] == DecimalString(n / 10);
    } else {
      assert s[..|s| - 1] == [];
    }
  }

  /** string_to_bigint reads back every number in int64 range from its decimal text. */
  lemma StringToBigintDecimal(n: nat)
    requires n <= Int64Max
    ensures StringToBigint(DecimalString(n)) == Some(n)
  {
    DecimalStringValue(n);
  }

  /** Stand-in for the runtime primitive string_to_bool on the images the
      parser produces: "true" or "false" in any letter case. */
  function StringToBool(s: string): (r: Option<bool>)
    ensures r.Some? <==> ToLower(s) == "true" || ToLower(s) == "false"
    ensures r.Some? ==> (r.value <==> ToLower(s) == "true")
  {
    var lower := ToLower(s);
    if lower == "true" then Some(true) else if lower == "false" then Some(false) else None
  }

  function LowerChar(c: char): char {
    if 'A' <= c <= 'Z' then (c as int + 32) as char else c
  }

  /** boost::to_lower on ASCII text. */
  function ToLower(s: string): (r: string)
    ensures |r| == |s|
    ensures forall i | 0 <= i < |s| :: r[i] == LowerChar(s[i])
  {
    seq(|s|, i requires 0 <= i < |s| => LowerChar(s[i]))
  }

  /** Stand-in for node::StringToDataType: the type names a column or a
      parameter may carry, in any letter case; any other name is a kTypeError. */
  function StringToDataType(name: string): (r: Result<DataType>)
    ensures r.Err? ==> r.code == TypeError
  {
    var n := ToLower(name);
    if n == "bool" || n == "boolean" then Ok(Bool)
    else if n == "int16" || n == "smallint" then Ok(Int16)
    else if n == "int32" || n == "int" || n == "integer" then Ok(Int32)
    else if n == "int64" || n == "bigint" then Ok(Int64)
    else if n == "float" then Ok(Float)
    else if n == "double" then Ok(Double)
    else if n == "string" || n == "varchar" then Ok(Varchar)
    else if n == "timestamp" then Ok(Timestamp)
    else if n == "date" then Ok(Date)
    else Err(TypeError)
  }

  /** static_cast<int> of an int64: two's-complement truncation to 32 bits. */
  function WrapInt32(v: int): (r: int)
    ensures Int32Min <= r <= Int32Max
    ensures (r - v) % 0x1_0000_0000 == 0
    ensures Int32Min <= v <= Int32Max ==> r == v
  {
    (v - Int32Min) % 0x1_0000_0000 + Int32Min
  }

  /** ASTIntLiteralToNum: the image, without its long suffix, read as int64. */
  function IntLiteralToNum(e: Expr): (r: Result<int>)
    ensures !e.IntLiteral? ==> r == Err(PlanError)
    ensures e.IntLiteral? ==> r.Ok? || r == Err(TypeError)
    ensures r.Ok? ==> Int64Min <= r.value <= Int64Max
  {
    match e
    case IntLiteral(image) =>
      var text := if IsLong(image) then image[..|image| - 1] else image;
      (match StringToBigint(text)
       case Some(v) => Ok(v)
       case None => Err(TypeError))
    case _ => Err(PlanError)
  }

  datatype Interval = Interval(count: int, unit: DataType)

  /** The unit an interval image's last character selects. */
  function IntervalUnit(image: string): Option<DataType> {
    if |image| == 0 then None
    else
      match image[|image| - 1]
      case 'd' => Some(Day)
      case 'D' => Some(Day)
      case 'h' => Some(Hour)
      case 'H' => Some(Hour)
      case 'm' => Some(Minute)
      case 'M' => Some(Minute)
      case 's' => Some(Second)
      case 'S' => Some(Second)
      case _ => None
  }

  /** ASTIntervalLIteralToNum: unit from the last character, count from the rest. */
  function IntervalLiteralToNum(e: Expr): (r: Result<Interval>)
    ensures !e.IntervalLiteral? ==> r == Err(PlanError)
    ensures e.IntervalLiteral? ==> r.Ok? || r == Err(TypeError)
    ensures r.Ok? ==> r.value.unit in {Day, Hour, Minute, Second}
    ensures r.Ok? ==> Int64Min <= r.value.count <= Int64Max
  {
    match e
    case IntervalLiteral(image) =>
      (match IntervalUnit(image)
       case None => Err(TypeError)
       case Some(unit) =>
         (match StringToBigint(image[..|image| - 1])
          case None => Err(TypeError)
          case Some(v) => Ok(Interval(v, unit))))
    case _ => Err(PlanError)
  }

  /** AstPathExpressionToString. */
  function PathExpressionToString(e: Expr): (r: Result<string>)
    ensures r.Ok? <==> e.PathExpression?
    ensures r.Err? ==> r.code == PlanError
  {
    match e
    case PathExpression(names) => Ok(PathString(names))
    case _ => Err(PlanError)
  }

  /** AstStringLiteralToString. */
  function StringLiteralToString(e: Expr): (r: Result<string>)
    ensures r.Ok? <==> e.StringLiteral?
    ensures r.Ok? ==> r.value == e.stringValue
    ensures r.Err? ==> r.code == PlanError
  {
    match e
    case StringLiteral(v) => Ok(v)
    case _ => Err(PlanError)
  }

  // The literal cases of ConvertExprNode.

  /** AST_INT_LITERAL: hex refused; a value in int32 range becomes a 32-bit
      constant, any other int64 value a 64-bit constant. */
  function ConvertIntLiteral(image: string): Result<ConstValue> {
    if IsHex(image) then Err(SqlError)
    else
      var v :- IntLiteralToNum(IntLiteral(image));
      if v <= Int32Max && v >= Int32Min then Ok(IntConst(v)) else Ok(BigIntConst(v))
  }

  /** AST_BOOLEAN_LITERAL. */
  function ConvertBoolLiteral(image: string): Result<ConstValue> {
    match StringToBool(image)
    case Some(b) => Ok(BoolConst(b))
    case None => Err(SqlError)
  }

  /** AST_FLOAT_LITERAL; the numeric parse is not modelled, the constant keeps its text. */
  function ConvertFloatLiteral(image: string): ConstValue {
    if IsFloat32(image) then FloatConst(image[..|image| - 1]) else DoubleConst(image)
  }

  /** AST_INTERVAL_LITERAL. */
  function ConvertIntervalLiteral(image: string): Result<ConstValue> {
    var iv :- IntervalLiteralToNum(IntervalLiteral(image));
    Ok(UnitConst(iv.count, iv.unit))
  }
}
