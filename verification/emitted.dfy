/**
 * The buffer after each visit of the builder, as a pure function of the buffer before it.
 *
 * These functions follow the visitors step by step: every `b + [Text(t)]` is one append,
 * every list is rendered by appending each item and its separator and then cutting the
 * last separator back, and an error stops the visit where the visitor would throw.
 * Module Agreement proves that each of them only appends what Render says.
 */
module Emitted {
  import opened Wrappers
  import opened Statements
  import opened Expressions
  import opened Render

  // ---------------------------------------------------------------- tables and columns

  function TableInto(env: Env, t: TableExpression, nameType: TableNameType, b: Parts): Rendered {
    var name := env.metamodel.tableName(t);
    match nameType
    case NameOnly => Ok(b + [Text(name)])
    case AliasOnly =>
      if t !in env.aliases then Err(AliasNotFound(t)) else Ok(b + [Text(env.aliases[t])])
    case NameAndAlias =>
      var b1 := b + [Text(name)];
      if t !in env.aliases then Err(AliasNotFound(t))
      else
        var alias := env.aliases[t];
        if IsBlank(alias) then Ok(b1)
        else
          var b2 := if env.dialect.supportsAsKeywordForTableAlias then b1 + [Text(" as")] else b1;
          Ok(b2 + [Text(" " + alias)])
  }

  function ColumnInto(env: Env, e: ColumnExpression, b: Parts): Rendered
    decreases e, 2
  {
    match e
    case AliasExpression(_, _) => AliasInto(env, e, b)
    case ArithmeticExpression(a) => ArithmeticInto(env, a, b)
    case CaseExpression(_, _) => CaseInto(env, e, b)
    case LiteralExpression(v) => Ok(b + [Text(env.dialect.formatValue(v))])
    case RandomFunction => Ok(b + [Text(env.dialect.randomFunction + "()")])
    case ScalarExpression(s) => ScalarInto(env, s, b)
    case StringFunction(f) => StringFunctionInto(env, f, b)
    case PropertyExpression(owner, _, _) =>
      var name := env.metamodel.columnName(e);
      if owner !in env.aliases then Err(AliasNotFound(owner))
      else
        var alias := env.aliases[owner];
        Ok(b + [Text(if IsBlank(alias) then name else alias + "." + name)])
  }

  function AliasInto(env: Env, e: ColumnExpression, b: Parts): Rendered
    requires e.AliasExpression?
    decreases e, 1
  {
    var b1 :- ColumnInto(env, e.expression, b);
    Ok(b1 + [Text(" as " + env.dialect.enquote(e.alias))])
  }

  function ArithmeticInto(env: Env, a: Arithmetic, b: Parts): Rendered
    decreases a, 1
  {
    var b1 := b + [Text("(")];
    var b2 :-
      if a.Mod? && !env.dialect.supportsModuloOperator then
        var c1 :- OperandInto(env, a.left, b1 + [Text("mod(")]);
        var c2 :- OperandInto(env, a.right, c1 + [Text(", ")]);
        Ok(c2 + [Text(")")])
      else
        var c1 :- OperandInto(env, a.left, b1);
        OperandInto(env, a.right, c1 + [Text(ArithmeticSymbol(a))]);
    Ok(b2 + [Text(")")])
  }

  function CaseInto(env: Env, e: ColumnExpression, b: Parts): Rendered
    requires e.CaseExpression?
    decreases e, 1
  {
    var b1 :- WhensInto(env, e.whenList, 0, b + [Text("case")]);
    var b2 :-
      match e.otherwise
      case None => Ok(b1)
      case Some(o) => ColumnInto(env, o, b1 + [Text(" else ")]);
    Ok(b2 + [Text(" end")])
  }

  /** The WHEN branches i.. of a CASE. */
  function WhensInto(env: Env, whens: seq<When>, i: nat, b: Parts): Rendered
    requires i <= |whens|
    decreases whens, 0, |whens| - i
  {
    if i == |whens| then Ok(b)
    else
      var b1 :- WhenInto(env, whens[i], b);
      WhensInto(env, whens, i + 1, b1)
  }

  function WhenInto(env: Env, w: When, b: Parts): Rendered
    decreases w, 1
  {
    if |w.criteria| == 0 then Ok(b)
    else
      var b1 :- ConjunctionInto(env, w.criteria, b + [Text(" when ")]);
      OperandInto(env, w.thenOperand, b1 + [Text(" then ")])
  }

  function ScalarInto(env: Env, s: Scalar, b: Parts): Rendered
    decreases s, 1
  {
    match s
    case AggregateFunction(a) => AggregateInto(env, a, b)
    case ScalarQueryExpression(q) => Ok(b + [Text("(")] + SubqueryStatement(env, q).parts + [Text(")")])
  }

  function AggregateInto(env: Env, a: Aggregate, b: Parts): Rendered
    decreases a, 1
  {
    if a.CountAsterisk? then Ok(b + [Text("count(*)")])
    else
      var b1 :- ColumnInto(env, a.expression, b + [Text(AggregateOpening(a))]);
      Ok(b1 + [Text(")")])
  }

  function StringFunctionInto(env: Env, f: StringFunctionCall, b: Parts): Rendered
    decreases f, 2
  {
    var b1 :- StringCallInto(env, f, b + [Text("(")]);
    Ok(b1 + [Text(")")])
  }

  /** The call inside the parentheses a string function is wrapped in. */
  function StringCallInto(env: Env, f: StringFunctionCall, b: Parts): Rendered
    decreases f, 1
  {
    match f
    case Concat(l, r) =>
      var c1 :- OperandInto(env, l, b + [Text("concat(")]);
      var c2 :- OperandInto(env, r, c1 + [Text(", ")]);
      Ok(c2 + [Text(")")])
    case Lower(o) =>
      var c1 :- OperandInto(env, o, b + [Text("lower(")]);
      Ok(c1 + [Text(")")])
    case Ltrim(o) =>
      var c1 :- OperandInto(env, o, b + [Text("ltrim(")]);
      Ok(c1 + [Text(")")])
    case Rtrim(o) =>
      var c1 :- OperandInto(env, o, b + [Text("rtrim(")]);
      Ok(c1 + [Text(")")])
    case Substring(t, s, _) =>
      var c1 :- OperandInto(env, t, b + [Text(env.dialect.substringFunction + "(")]);
      var c2 :- OperandInto(env, s, c1 + [Text(", ")]);
      var c3 :- SubstringLengthInto(env, f, c2);
      Ok(c3 + [Text(")")])
    case Trim(o) =>
      var c1 :- OperandInto(env, o, b + [Text("trim(")]);
      Ok(c1 + [Text(")")])
    case Upper(o) =>
      var c1 :- OperandInto(env, o, b + [Text("upper(")]);
      Ok(c1 + [Text(")")])
  }

  function SubstringLengthInto(env: Env, f: StringFunctionCall, b: Parts): Rendered
    requires f.Substring?
    decreases f, 0
  {
    match f.length
    case Some(o) => OperandInto(env, o, b + [Text(", ")])
    case None =>
      match env.dialect.defaultLengthForSubstringFunction
      case None => Ok(b)
      case Some(n) => Ok(b + [Text(", " + IntToString(n))])
  }

  function OperandInto(env: Env, o: Operand, b: Parts): Rendered
    decreases o, 2
  {
    match o
    case Column(e) => ColumnInto(env, e, b)
    case Argument(_, _) => Ok(b + [ValuePart(ArgumentValue(o))])
  }

  // ---------------------------------------------------------------- criteria

  function CriterionInto(env: Env, index: int, c: Criterion, b: Parts): Rendered
    decreases c, 5
  {
    match c
    case Eq(l, r) => BinaryInto(env, c, l, r, "=", b)
    case NotEq(l, r) => BinaryInto(env, c, l, r, "<>", b)
    case Less(l, r) => BinaryInto(env, c, l, r, "<", b)
    case LessEq(l, r) => BinaryInto(env, c, l, r, "<=", b)
    case Greater(l, r) => BinaryInto(env, c, l, r, ">", b)
    case GreaterEq(l, r) => BinaryInto(env, c, l, r, ">=", b)
    case IsNull(l) => IsNullInto(env, c, l, false, b)
    case IsNotNull(l) => IsNullInto(env, c, l, true, b)
    case Like(l, p) => LikeInto(env, c, l, p, false, b)
    case NotLike(l, p) => LikeInto(env, c, l, p, true, b)
    case Between(l, r) => BetweenInto(env, c, l, r, false, b)
    case NotBetween(l, r) => BetweenInto(env, c, l, r, true, b)
    case _ => CompoundInto(env, index, c, b)
  }

  /** The criteria over lists, subqueries and nested criteria: the second half of the dispatch. */
  function CompoundInto(env: Env, index: int, c: Criterion, b: Parts): Rendered
    requires !IsOperandPredicate(c)
    decreases c, 4
  {
    match c
    case InList(l, r) => InListInto(env, c, l, r, false, b)
    case NotInList(l, r) => InListInto(env, c, l, r, true, b)
    case InList2(l, r) => InList2Into(env, c, l, r, false, b)
    case NotInList2(l, r) => InList2Into(env, c, l, r, true, b)
    case InSubQuery(l, q) => InSubQueryInto(env, c, l, q, false, b)
    case NotInSubQuery(l, q) => InSubQueryInto(env, c, l, q, true, b)
    case InSubQuery2(l, q) => InSubQuery2Into(env, c, l, q, false, b)
    case NotInSubQuery2(l, q) => InSubQuery2Into(env, c, l, q, true, b)
    case Exists(q) => Ok(ExistsInto(env, q, false, b))
    case NotExists(q) => Ok(ExistsInto(env, q, true, b))
    case And(cs) => LogicalBinaryInto(env, c, "and", cs, index, b)
    case Or(cs) => LogicalBinaryInto(env, c, "or", cs, index, b)
    case Not(cs) => NotInto(env, c, cs, b)
  }

  function BinaryInto(env: Env, ghost parent: Criterion, left: Operand, right: Operand, operator: string, b: Parts): Rendered
    requires IsComparison(parent) && left == parent.left && right == parent.right
    decreases parent, 3
  {
    var b1 :- OperandInto(env, left, b);
    OperandInto(env, right, b1 + [Text(" " + operator + " ")])
  }

  function IsNullInto(env: Env, ghost parent: Criterion, left: Operand, not: bool, b: Parts): Rendered
    requires (parent.IsNull? || parent.IsNotNull?) && left == parent.left
    decreases parent, 3
  {
    var b1 :- OperandInto(env, left, b);
    Ok(b1 + [Text(if not then " is not null" else " is null")])
  }

  function LikeInto(env: Env, ghost parent: Criterion, left: Operand, pattern: EscapeExpression, not: bool, b: Parts): Rendered
    requires (parent.Like? || parent.NotLike?) && left == parent.left
    decreases parent, 3
  {
    var b1 :- OperandInto(env, left, b);
    var b2 := if not then b1 + [Text(" not")] else b1;
    var escapeSequence := FinalEscapeSequence(env);
    var newValue := EscapeText(pattern, env.dialect, escapeSequence);
    Ok(b2 + [Text(" like ")] + [ValuePart(Value(Str(newValue), OperandMasking(left)))] +
       [Text(" escape ")] + [ValuePart(Value(Str(escapeSequence), false))])
  }

  function BetweenInto(env: Env, ghost parent: Criterion, left: Operand, range: OperandPair, not: bool, b: Parts): Rendered
    requires (parent.Between? || parent.NotBetween?) && left == parent.left && range == parent.range
    decreases parent, 3
  {
    var b1 :- OperandInto(env, left, b);
    var b2 := if not then b1 + [Text(" not")] else b1;
    var b3 :- OperandInto(env, range.first, b2 + [Text(" between ")]);
    OperandInto(env, range.second, b3 + [Text(" and ")])
  }

  function InListInto(env: Env, ghost parent: Criterion, left: Operand, list: seq<Operand>, not: bool, b: Parts): Rendered
    requires (parent.InList? || parent.NotInList?) && left == parent.left && list == parent.list
    decreases parent, 3
  {
    var b1 :- OperandInto(env, left, b);
    var b2 := if not then b1 + [Text(" not")] else b1;
    var b3 := b2 + [Text(" in (")];
    var b4 :-
      if |list| == 0 then Ok(b3 + [Text("null")])
      else
        var c :- OperandsInto(env, list, 0, b3);
        CutBackOrFail(c, 2);
    Ok(b4 + [Text(")")])
  }

  /** Operands i.. of an IN list, each followed by ", ". */
  function OperandsInto(env: Env, list: seq<Operand>, i: nat, b: Parts): Rendered
    requires i <= |list|
    decreases list, 0, |list| - i
  {
    if i == |list| then Ok(b)
    else
      var b1 :- OperandInto(env, list[i], b);
      OperandsInto(env, list, i + 1, b1 + [Text(", ")])
  }

  function InList2Into(env: Env, ghost parent: Criterion, leftPair: OperandPair, rows: seq<OperandPair>, not: bool, b: Parts): Rendered
    requires (parent.InList2? || parent.NotInList2?) && leftPair == parent.leftPair && rows == parent.rows
    decreases parent, 3
  {
    if env.dialect.supportsMultipleColumnsInInPredicate then RowValueInListInto(env, parent, leftPair, rows, not, b)
    else ExpandedInListInto(env, parent, leftPair, rows, not, b)
  }

  /** A two-column IN list where the dialect compares row values: `(a, b) in ((v1, v2), ...)`. */
  function RowValueInListInto(env: Env, ghost parent: Criterion, leftPair: OperandPair, rows: seq<OperandPair>, not: bool, b: Parts): Rendered
    requires (parent.InList2? || parent.NotInList2?) && leftPair == parent.leftPair && rows == parent.rows
    decreases parent, 2
  {
    var b1 :- OperandInto(env, leftPair.first, b + [Text("(")]);
    var b2 :- OperandInto(env, leftPair.second, b1 + [Text(", ")]);
    var b3 := b2 + [Text(")")];
    var b4 := if not then b3 + [Text(" not")] else b3;
    var b5 := b4 + [Text(" in (")];
    var b6 :-
      if |rows| == 0 then Ok(b5 + [Text("(null, null)")])
      else
        var c :- TuplesInto(env, rows, 0, b5);
        CutBackOrFail(c, 2);
    Ok(b6 + [Text(")")])
  }

  /** A two-column IN list expanded into column comparisons: `((a = v1 and b = v2) or ...)`. */
  function ExpandedInListInto(env: Env, ghost parent: Criterion, leftPair: OperandPair, rows: seq<OperandPair>, not: bool, b: Parts): Rendered
    requires (parent.InList2? || parent.NotInList2?) && leftPair == parent.leftPair && rows == parent.rows
    decreases parent, 2
  {
    var b1 := if not then b + [Text("not ")] else b;
    var b2 := b1 + [Text("(")];
    var b3 :-
      if |rows| == 0 then
        var c1 :- OperandInto(env, leftPair.first, b2);
        var c2 :- OperandInto(env, leftPair.second, c1 + [Text(" = null")] + [Text(" and ")]);
        Ok(c2 + [Text(" = null")])
      else
        var c :- OrRowsInto(env, parent, leftPair, rows, 0, b2);
        CutBackOrFail(c, 4);
    Ok(b3 + [Text(")")])
  }

  /** Rows i.. of a two-column IN list, each followed by ", ". */
  function TuplesInto(env: Env, rows: seq<OperandPair>, i: nat, b: Parts): Rendered
    requires i <= |rows|
    decreases rows, 0, |rows| - i
  {
    if i == |rows| then Ok(b)
    else
      var b1 :- TupleInto(env, rows[i], b);
      TuplesInto(env, rows, i + 1, b1 + [Text(", ")])
  }

  function TupleInto(env: Env, row: OperandPair, b: Parts): Rendered
    decreases row, 1
  {
    var b1 :- OperandInto(env, row.first, b + [Text("(")]);
    var b2 :- OperandInto(env, row.second, b1 + [Text(", ")]);
    Ok(b2 + [Text(")")])
  }

  /** Rows i.. of the OR expansion of a two-column IN list, each followed by " or ". */
  function OrRowsInto(env: Env, ghost parent: Criterion, leftPair: OperandPair, rows: seq<OperandPair>, i: nat, b: Parts): Rendered
    requires (parent.InList2? || parent.NotInList2?) && leftPair == parent.leftPair && rows == parent.rows
    requires i <= |rows|
    decreases parent, 1, |rows| - i
  {
    if i == |rows| then Ok(b)
    else
      var b1 :- OrRowInto(env, parent, leftPair, rows[i], b);
      OrRowsInto(env, parent, leftPair, rows, i + 1, b1 + [Text(" or ")])
  }

  /** One row of the OR expansion: the left columns are visited again for every row. */
  function OrRowInto(env: Env, ghost parent: Criterion, leftPair: OperandPair, row: OperandPair, b: Parts): Rendered
    requires (parent.InList2? || parent.NotInList2?) && leftPair == parent.leftPair && row in parent.rows
    decreases parent, 0
  {
    var b1 :- OperandInto(env, leftPair.first, b + [Text("(")]);
    var b2 :- OperandInto(env, row.first, b1 + [Text(" = ")]);
    var b3 :- OperandInto(env, leftPair.second, b2 + [Text(" and ")]);
    var b4 :- OperandInto(env, row.second, b3 + [Text(" = ")]);
    Ok(b4 + [Text(")")])
  }

  function InSubQueryInto(env: Env, ghost parent: Criterion, left: Operand, q: SubqueryExpression, not: bool, b: Parts): Rendered
    requires (parent.InSubQuery? || parent.NotInSubQuery?) && left == parent.left
    decreases parent, 3
  {
    var b1 :- OperandInto(env, left, b);
    var b2 := if not then b1 + [Text(" not")] else b1;
    Ok(b2 + [Text(" in (")] + SubqueryStatement(env, q).parts + [Text(")")])
  }

  function InSubQuery2Into(env: Env, ghost parent: Criterion, leftPair: OperandPair, q: SubqueryExpression, not: bool, b: Parts): Rendered
    requires (parent.InSubQuery2? || parent.NotInSubQuery2?) && leftPair == parent.leftPair
    decreases parent, 3
  {
    if !env.dialect.supportsMultipleColumnsInInPredicate then Err(UnsupportedOperation)
    else
      var b1 :- OperandInto(env, leftPair.first, b + [Text("(")]);
      var b2 :- OperandInto(env, leftPair.second, b1 + [Text(", ")]);
      var b3 := b2 + [Text(")")];
      var b4 := if not then b3 + [Text(" not")] else b3;
      Ok(b4 + [Text(" in (")] + SubqueryStatement(env, q).parts + [Text(")")])
  }

  function ExistsInto(env: Env, q: SubqueryExpression, not: bool, b: Parts): Parts {
    var b1 := if not then b + [Text("not ")] else b;
    b1 + [Text("exists (")] + SubqueryStatement(env, q).parts + [Text(")")]
  }

  /**
   * An AND/OR at position `index`: when it has criteria, a positive index first cuts
   * back the five characters written before it, and a non-zero index writes the operator.
   */
  function LogicalBinaryInto(env: Env, ghost parent: Criterion, operator: string, criteria: seq<Criterion>, index: int, b: Parts): Rendered
    requires (parent.And? || parent.Or?) && criteria == parent.criteria
    decreases parent, 3
  {
    if |criteria| == 0 then Ok(b)
    else
      var b1 :- if index > 0 then CutBackOrFail(b, 5) else Ok(b);
      var b2 := if index != 0 then b1 + [Text(" " + operator + " ")] else b1;
      var b3 :- ConjunctionInto(env, criteria, b2 + [Text("(")]);
      Ok(b3 + [Text(")")])
  }

  function NotInto(env: Env, ghost parent: Criterion, criteria: seq<Criterion>, b: Parts): Rendered
    requires parent.Not? && criteria == parent.criteria
    decreases parent, 3
  {
    if |criteria| == 0 then Ok(b)
    else
      var b1 :- ConjunctionInto(env, criteria, b + [Text("not ")] + [Text("(")]);
      Ok(b1 + [Text(")")])
  }

  /** Criteria visited with their indexes, each followed by " and ", the last " and " cut back. */
  function ConjunctionInto(env: Env, criteria: seq<Criterion>, b: Parts): Rendered
    decreases criteria, 1
  {
    var b1 :- CriteriaInto(env, criteria, 0, b);
    CutBackOrFail(b1, 5)
  }

  function CriteriaInto(env: Env, criteria: seq<Criterion>, i: nat, b: Parts): Rendered
    requires i <= |criteria|
    decreases criteria, 0, |criteria| - i
  {
    if i == |criteria| then Ok(b)
    else
      var b1 :- CriterionInto(env, i, criteria[i], b);
      CriteriaInto(env, criteria, i + 1, b1 + [Text(" and ")])
  }
}
