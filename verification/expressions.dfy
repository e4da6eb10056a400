/**
 * The closed expression and criterion trees the builder compiles, and the
 * capabilities of the dialect and environment it consults while doing so.
 */
module Expressions {
  import opened Wrappers
  import opened Statements

  /** The identity of a table or derived table in a FROM/JOIN position. */
  datatype TableExpression = TableExpression(id: nat)

  datatype TableNameType = NameOnly | AliasOnly | NameAndAlias

  datatype SelectContext = SelectContext(id: nat)
  datatype SetOperationContext = SetOperationContext(id: nat)

  /** A nested query: a select or a set operation (union, intersect, except). */
  datatype SubqueryExpression =
    | SelectQuery(select: SelectContext)
    | SetOperationQuery(setOperation: SetOperationContext)

  datatype ColumnExpression =
    | PropertyExpression(owner: TableExpression, columnName: string, masking: bool)
    | AliasExpression(expression: ColumnExpression, alias: string)
    | ArithmeticExpression(arithmetic: Arithmetic)
    | CaseExpression(whenList: seq<When>, otherwise: Option<ColumnExpression>)
    | LiteralExpression(literal: Datum)
    | RandomFunction
    | ScalarExpression(scalar: Scalar)
    | StringFunction(call: StringFunctionCall)

  /** Each arithmetic node keeps the expression it was built on (its owner) and two operands. */
  datatype Arithmetic =
    | Plus(expression: ColumnExpression, left: Operand, right: Operand)
    | Minus(expression: ColumnExpression, left: Operand, right: Operand)
    | Times(expression: ColumnExpression, left: Operand, right: Operand)
    | Div(expression: ColumnExpression, left: Operand, right: Operand)
    | Mod(expression: ColumnExpression, left: Operand, right: Operand)

  datatype Scalar =
    | AggregateFunction(aggregate: Aggregate)
    | ScalarQueryExpression(subquery: SubqueryExpression)

  datatype Aggregate =
    | Avg(expression: ColumnExpression)
    | CountAsterisk
    | Count(expression: ColumnExpression)
    | Max(expression: ColumnExpression)
    | Min(expression: ColumnExpression)
    | Sum(expression: ColumnExpression)

  datatype StringFunctionCall =
    | Concat(left: Operand, right: Operand)
    | Lower(operand: Operand)
    | Ltrim(operand: Operand)
    | Rtrim(operand: Operand)
    | Substring(target: Operand, startIndex: Operand, length: Option<Operand>)
    | Trim(operand: Operand)
    | Upper(operand: Operand)

  /** One WHEN branch of a CASE: its criteria are conjoined. */
  datatype When = When(criteria: seq<Criterion>, thenOperand: Operand)

  /** A leaf of an expression tree: a column, or an argument bound as a value of that column. */
  datatype Operand =
    | Column(expression: ColumnExpression)
    | Argument(expression: ColumnExpression, datum: Datum)

  datatype OperandPair = OperandPair(first: Operand, second: Operand)

  /** A LIKE pattern: text kept as is, text to escape, and their concatenation. */
  datatype EscapeExpression =
    | LiteralText(value: string)
    | Escape(value: string)
    | Composite(left: EscapeExpression, right: EscapeExpression)

  datatype Criterion =
    | Eq(left: Operand, right: Operand)
    | NotEq(left: Operand, right: Operand)
    | Less(left: Operand, right: Operand)
    | LessEq(left: Operand, right: Operand)
    | Greater(left: Operand, right: Operand)
    | GreaterEq(left: Operand, right: Operand)
    | IsNull(left: Operand)
    | IsNotNull(left: Operand)
    | Like(left: Operand, pattern: EscapeExpression)
    | NotLike(left: Operand, pattern: EscapeExpression)
    | Between(left: Operand, range: OperandPair)
    | NotBetween(left: Operand, range: OperandPair)
    | InList(left: Operand, list: seq<Operand>)
    | NotInList(left: Operand, list: seq<Operand>)
    | InList2(leftPair: OperandPair, rows: seq<OperandPair>)
    | NotInList2(leftPair: OperandPair, rows: seq<OperandPair>)
    | InSubQuery(left: Operand, subquery: SubqueryExpression)
    | NotInSubQuery(left: Operand, subquery: SubqueryExpression)
    | InSubQuery2(leftPair: OperandPair, subquery: SubqueryExpression)
    | NotInSubQuery2(leftPair: OperandPair, subquery: SubqueryExpression)
    | Exists(subquery: SubqueryExpression)
    | NotExists(subquery: SubqueryExpression)
    | And(criteria: seq<Criterion>)
    | Or(criteria: seq<Criterion>)
    | Not(criteria: seq<Criterion>)

  /**
   * Whether values of the expression are masked in logs: a property carries the flag,
   * and arithmetic and alias expressions take it from the expression they wrap.
   */
  function Masking(e: ColumnExpression): bool {
    match e
    case PropertyExpression(_, _, masking) => masking
    case AliasExpression(inner, _) => Masking(inner)
    case ArithmeticExpression(a) => Masking(a.expression)
    case _ => false
  }

  function OperandMasking(o: Operand): bool {
    Masking(o.expression)
  }

  /** The value an argument operand binds. */
  function ArgumentValue(o: Operand): Value
    requires o.Argument?
  {
    Value(o.datum, Masking(o.expression))
  }

  /** The syntax variations and capabilities of one backend. */
  datatype Dialect = Dialect(
    enquote: string -> string,
    supportsAsKeywordForTableAlias: bool,
    supportsModuloOperator: bool,
    supportsMultipleColumnsInInPredicate: bool,
    escapeSequence: string,
    escape: (string, string) -> string,
    randomFunction: string,
    substringFunction: string,
    defaultLengthForSubstringFunction: Option<int>,
    formatValue: Datum -> string)

  /** Canonical names the entity metamodel computes with the dialect's quoting. */
  datatype Metamodel = Metamodel(
    tableName: TableExpression -> string,
    columnName: ColumnExpression -> string)

  /** The default projection predicate of a nested query: every column is projected. */
  function AllColumns(e: ColumnExpression): bool {
    true
  }

  /**
   * The builders of nested queries: a select is built with a child alias scope chained
   * to the given aliases, a set operation with the given aliases themselves. Both are
   * given the predicate that decides which columns the nested query projects.
   */
  datatype SubqueryBuilders = SubqueryBuilders(
    select: (SelectContext, map<TableExpression, string>, ColumnExpression -> bool) -> Statement,
    setOperation: (SetOperationContext, map<TableExpression, string>, ColumnExpression -> bool) -> Statement)

  /** Everything a builder is constructed with: dialect, alias assignment, escape override. */
  datatype Env = Env(
    dialect: Dialect,
    aliases: map<TableExpression, string>,
    escapeSequence: Option<string>,
    metamodel: Metamodel,
    subqueries: SubqueryBuilders)

  /** Why a build was aborted. */
  datatype BuildError =
    | AliasNotFound(table: TableExpression)
    | CutBackFailed(reason: CutBackError)
    | UnsupportedOperation

  /** Kotlin's Char.isWhitespace: the ASCII controls \t to \r, \u001C to \u001F and Unicode space separators. */
  predicate IsWhitespace(c: char) {
    || '\t' <= c <= '\r'
    || '\U{1C}' <= c <= ' '
    || c == '\U{A0}' || c == '\U{1680}'
    || '\U{2000}' <= c <= '\U{200A}'
    || c == '\U{2028}' || c == '\U{2029}' || c == '\U{202F}' || c == '\U{205F}' || c == '\U{3000}'
  }

  /** Kotlin's isBlank: empty or whitespace only. */
  predicate IsBlank(s: string) {
    forall i :: 0 <= i < |s| ==> IsWhitespace(s[i])
  }

  /** The decimal form of an integer, as Kotlin prints it. */
  function IntToString(i: int): (s: string)
    ensures |s| > 0
  {
    if i < 0 then "-" + NatToString(-i) else NatToString(i)
  }

  function NatToString(n: nat): (s: string)
    ensures |s| > 0
    ensures forall k :: 0 <= k < |s| ==> '0' <= s[k] <= '9'
  {
    var digit := ['0' + (n % 10) as char];
    if n < 10 then digit else NatToString(n / 10) + digit
  }
}
