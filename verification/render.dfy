/**
 * What each visitor of the builder appends to the statement buffer, as pure functions.
 *
 * Every function yields the parts appended, or the error that aborts the build, checked
 * in the order the builder meets them (left operand before right operand, and so on).
 * Lists are rendered "from index i": the parts of items i.. with their separators, so a
 * separator only ever stands between two items.
 *
 * The criterion helpers take the criterion they belong to as a ghost `parent`; it fixes
 * no behaviour and only shows that recursion descends into the tree.
 */
module Render {
  import opened Wrappers
  import opened Statements
  import opened Expressions

  type Rendered = Result<Parts, BuildError>

  function Prepend(prefix: Parts, r: Rendered): Rendered {
    match r
    case Ok(parts) => Ok(prefix + parts)
    case Err(e) => Err(e)
  }

  lemma PrependNothing(r: Rendered)
    ensures Prepend([], r) == r
  {
    if r.Ok? {
      assert [] + r.value == r.value;
    }
  }

  lemma PrependTwice(a: Parts, b: Parts, r: Rendered)
    ensures Prepend(a, Prepend(b, r)) == Prepend(a + b, r)
  {
    if r.Ok? {
      assert a + (b + r.value) == (a + b) + r.value;
    }
  }

  /** A cut-back of `n` characters, its refusal aborting the build. */
  function CutBackOrFail(parts: Parts, n: int): Rendered {
    match CutBackParts(parts, n)
    case Ok(rest) => Ok(rest)
    case Err(e) => Err(CutBackFailed(e))
  }

  /** The outcome and buffer of a visit are those the rendering `R` describes. */
  predicate Reflects(r: Outcome<BuildError>, parts: Parts, R: Rendered) {
    r == Status(R) && (r.Pass? ==> parts == R.value)
  }

  function Status(r: Rendered): Outcome<BuildError> {
    match r
    case Ok(_) => Pass
    case Err(e) => Fail(e)
  }

  /** A text part present only when `flag` holds, such as the " not" of negated criteria. */
  function Keyword(flag: bool, text: string): Parts {
    if flag then [Text(text)] else []
  }

  /** The statement of a nested query, built by the select or set-operation builder projecting every column. */
  function SubqueryStatement(env: Env, q: SubqueryExpression): Statement {
    match q
    case SelectQuery(context) => env.subqueries.select(context, env.aliases, AllColumns)
    case SetOperationQuery(context) => env.subqueries.setOperation(context, env.aliases, AllColumns)
  }

  // ---------------------------------------------------------------- tables and columns

  function TableParts(env: Env, t: TableExpression, nameType: TableNameType): Rendered {
    var name := env.metamodel.tableName(t);
    match nameType
    case NameOnly => Ok([Text(name)])
    case AliasOnly =>
      if t !in env.aliases then Err(AliasNotFound(t)) else Ok([Text(env.aliases[t])])
    case NameAndAlias =>
      if t !in env.aliases then Err(AliasNotFound(t))
      else
        var alias := env.aliases[t];
        Ok([Text(name)] +
           (if IsBlank(alias) then []
            else Keyword(env.dialect.supportsAsKeywordForTableAlias, " as") + [Text(" " + alias)]))
  }

  function ColumnParts(env: Env, e: ColumnExpression): Rendered
    decreases e, 2
  {
    match e
    case AliasExpression(_, _) => AliasParts(env, e)
    case ArithmeticExpression(a) => ArithmeticParts(env, a)
    case CaseExpression(_, _) => CaseParts(env, e)
    case LiteralExpression(v) => Ok([Text(env.dialect.formatValue(v))])
    case RandomFunction => Ok([Text(env.dialect.randomFunction + "()")])
    case ScalarExpression(s) => ScalarParts(env, s)
    case StringFunction(f) => StringFunctionParts(env, f)
    case PropertyExpression(_, _, _) => PropertyParts(env, e)
  }

  /** A property column: `alias.name`, or the bare name when the owner's alias is blank. */
  function PropertyParts(env: Env, e: ColumnExpression): Rendered
    requires e.PropertyExpression?
  {
    var name := env.metamodel.columnName(e);
    if e.owner !in env.aliases then Err(AliasNotFound(e.owner))
    else
      var alias := env.aliases[e.owner];
      Ok([Text(if IsBlank(alias) then name else alias + "." + name)])
  }

  function AliasParts(env: Env, e: ColumnExpression): Rendered
    requires e.AliasExpression?
    decreases e, 1
  {
    var inner :- ColumnParts(env, e.expression);
    Ok(inner + [Text(" as " + env.dialect.enquote(e.alias))])
  }

  function ArithmeticSymbol(a: Arithmetic): string {
    match a
    case Plus(_, _, _) => " + "
    case Minus(_, _, _) => " - "
    case Times(_, _, _) => " * "
    case Div(_, _, _) => " / "
    case Mod(_, _, _) => " % "
  }

  function ArithmeticParts(env: Env, a: Arithmetic): Rendered
    decreases a, 1
  {
    var l :- OperandParts(env, a.left);
    var r :- OperandParts(env, a.right);
    if a.Mod? && !env.dialect.supportsModuloOperator then
      Ok([Text("("), Text("mod(")] + l + [Text(", ")] + r + [Text(")"), Text(")")])
    else
      Ok([Text("(")] + l + [Text(ArithmeticSymbol(a))] + r + [Text(")")])
  }

  function CaseParts(env: Env, e: ColumnExpression): Rendered
    requires e.CaseExpression?
    decreases e, 1
  {
    var whens :- WhensFrom(env, e.whenList, 0);
    var otherwise :-
      match e.otherwise
      case None => Ok([])
      case Some(o) => Prepend([Text(" else ")], ColumnParts(env, o));
    Ok([Text("case")] + whens + otherwise + [Text(" end")])
  }

  function WhensFrom(env: Env, whens: seq<When>, i: nat): Rendered
    requires i <= |whens|
    decreases whens, 0, |whens| - i
  {
    if i == |whens| then Ok([])
    else
      var w :- WhenParts(env, whens[i]);
      var rest :- WhensFrom(env, whens, i + 1);
      Ok(w + rest)
  }

  /** A WHEN branch; one without criteria contributes nothing. */
  function WhenParts(env: Env, w: When): Rendered
    decreases w, 1
  {
    if |w.criteria| == 0 then Ok([])
    else
      var cs :- CriteriaFrom(env, w.criteria, 0);
      var then_ :- OperandParts(env, w.thenOperand);
      Ok([Text(" when ")] + cs + [Text(" then ")] + then_)
  }

  function ScalarParts(env: Env, s: Scalar): Rendered
    decreases s, 1
  {
    match s
    case AggregateFunction(a) => AggregateParts(env, a)
    case ScalarQueryExpression(q) => Ok([Text("(")] + SubqueryStatement(env, q).parts + [Text(")")])
  }

  function AggregateOpening(a: Aggregate): string
    requires !a.CountAsterisk?
  {
    match a
    case Avg(_) => "avg("
    case Count(_) => "count("
    case Max(_) => "max("
    case Min(_) => "min("
    case Sum(_) => "sum("
  }

  function AggregateParts(env: Env, a: Aggregate): Rendered
    decreases a, 1
  {
    if a.CountAsterisk? then Ok([Text("count(*)")])
    else
      var inner :- ColumnParts(env, a.expression);
      Ok([Text(AggregateOpening(a))] + inner + [Text(")")])
  }

  /** The optional third argument of SUBSTRING: the given length, else the dialect's default, else none. */
  function SubstringLengthParts(env: Env, f: StringFunctionCall): Rendered
    requires f.Substring?
    decreases f, 0
  {
    match f.length
    case Some(o) => Prepend([Text(", ")], OperandParts(env, o))
    case None =>
      match env.dialect.defaultLengthForSubstringFunction
      case None => Ok([])
      case Some(n) => Ok([Text(", " + IntToString(n))])
  }

  function StringFunctionParts(env: Env, f: StringFunctionCall): Rendered
    decreases f, 2
  {
    Prepend([Text("(")], Append(StringCallParts(env, f), [Text(")")]))
  }

  /** The call a string function renders, before it is wrapped in parentheses. */
  function StringCallParts(env: Env, f: StringFunctionCall): Rendered
    decreases f, 1
  {
    match f
    case Concat(l, r) =>
      var a :- OperandParts(env, l);
      var b :- OperandParts(env, r);
      Ok([Text("concat(")] + a + [Text(", ")] + b + [Text(")")])
    case Lower(o) => Prepend([Text("lower(")], Append(OperandParts(env, o), [Text(")")]))
    case Ltrim(o) => Prepend([Text("ltrim(")], Append(OperandParts(env, o), [Text(")")]))
    case Rtrim(o) => Prepend([Text("rtrim(")], Append(OperandParts(env, o), [Text(")")]))
    case Substring(t, s, _) =>
      var a :- OperandParts(env, t);
      var b :- OperandParts(env, s);
      var length :- SubstringLengthParts(env, f);
      Ok([Text(env.dialect.substringFunction + "(")] + a + [Text(", ")] + b + length + [Text(")")])
    case Trim(o) => Prepend([Text("trim(")], Append(OperandParts(env, o), [Text(")")]))
    case Upper(o) => Prepend([Text("upper(")], Append(OperandParts(env, o), [Text(")")]))
  }

  function Append(r: Rendered, suffix: Parts): Rendered {
    match r
    case Ok(parts) => Ok(parts + suffix)
    case Err(e) => Err(e)
  }

  /** A column renders as the column; an argument binds exactly its one value. */
  function OperandParts(env: Env, o: Operand): Rendered
    decreases o, 2
  {
    match o
    case Column(e) => ColumnParts(env, e)
    case Argument(_, _) => Ok([ValuePart(ArgumentValue(o))])
  }

  // ---------------------------------------------------------------- criteria

  function CriterionParts(env: Env, c: Criterion): Rendered
    decreases c, 2
  {
    match c
    case Eq(l, r) => BinaryParts(env, c, l, r, "=")
    case NotEq(l, r) => BinaryParts(env, c, l, r, "<>")
    case Less(l, r) => BinaryParts(env, c, l, r, "<")
    case LessEq(l, r) => BinaryParts(env, c, l, r, "<=")
    case Greater(l, r) => BinaryParts(env, c, l, r, ">")
    case GreaterEq(l, r) => BinaryParts(env, c, l, r, ">=")
    case IsNull(l) => IsNullParts(env, c, l, false)
    case IsNotNull(l) => IsNullParts(env, c, l, true)
    case Like(l, p) => LikeParts(env, c, l, p, false)
    case NotLike(l, p) => LikeParts(env, c, l, p, true)
    case Between(l, r) => BetweenParts(env, c, l, r, false)
    case NotBetween(l, r) => BetweenParts(env, c, l, r, true)
    case InList(l, r) => InListParts(env, c, l, r, false)
    case NotInList(l, r) => InListParts(env, c, l, r, true)
    case InList2(l, r) => InList2Parts(env, c, l, r, false)
    case NotInList2(l, r) => InList2Parts(env, c, l, r, true)
    case InSubQuery(l, q) => InSubQueryParts(env, c, l, q, false)
    case NotInSubQuery(l, q) => InSubQueryParts(env, c, l, q, true)
    case InSubQuery2(l, q) => InSubQuery2Parts(env, c, l, q, false)
    case NotInSubQuery2(l, q) => InSubQuery2Parts(env, c, l, q, true)
    case Exists(q) => ExistsParts(env, q, false)
    case NotExists(q) => ExistsParts(env, q, true)
    case And(cs) => LogicalBinaryParts(env, c, cs)
    case Or(cs) => LogicalBinaryParts(env, c, cs)
    case Not(cs) => NotParts(env, c, cs)
  }

  /** The criteria over one or two operands; the others range over lists, subqueries or criteria. */
  predicate IsOperandPredicate(c: Criterion) {
    || c.Eq? || c.NotEq? || c.Less? || c.LessEq? || c.Greater? || c.GreaterEq?
    || c.IsNull? || c.IsNotNull? || c.Like? || c.NotLike? || c.Between? || c.NotBetween?
  }

  predicate IsComparison(c: Criterion) {
    c.Eq? || c.NotEq? || c.Less? || c.LessEq? || c.Greater? || c.GreaterEq?
  }

  function BinaryParts(env: Env, ghost parent: Criterion, left: Operand, right: Operand, operator: string): Rendered
    requires IsComparison(parent) && left == parent.left && right == parent.right
    decreases parent, 1
  {
    var l :- OperandParts(env, left);
    var r :- OperandParts(env, right);
    Ok(l + [Text(" " + operator + " ")] + r)
  }

  function IsNullParts(env: Env, ghost parent: Criterion, left: Operand, not: bool): Rendered
    requires (parent.IsNull? || parent.IsNotNull?) && left == parent.left
    decreases parent, 1
  {
    var l :- OperandParts(env, left);
    Ok(l + [Text(if not then " is not null" else " is null")])
  }

  /** The escape sequence in force: the builder's own, else the dialect's default. */
  function FinalEscapeSequence(env: Env): string {
    env.escapeSequence.GetOr(env.dialect.escapeSequence)
  }

  /** The LIKE pattern rebuilt: literal text copied as is, only escape nodes passed through the dialect. */
  function EscapeText(e: EscapeExpression, d: Dialect, escapeSequence: string): string {
    match e
    case LiteralText(v) => v
    case Escape(v) => d.escape(v, escapeSequence)
    case Composite(l, r) => EscapeText(l, d, escapeSequence) + EscapeText(r, d, escapeSequence)
  }

  function LikeParts(env: Env, ghost parent: Criterion, left: Operand, pattern: EscapeExpression, not: bool): Rendered
    requires (parent.Like? || parent.NotLike?) && left == parent.left
    decreases parent, 1
  {
    var l :- OperandParts(env, left);
    var escapeSequence := FinalEscapeSequence(env);
    var newValue := EscapeText(pattern, env.dialect, escapeSequence);
    Ok(l + Keyword(not, " not") +
       [Text(" like "), ValuePart(Value(Str(newValue), OperandMasking(left))),
        Text(" escape "), ValuePart(Value(Str(escapeSequence), false))])
  }

  function BetweenParts(env: Env, ghost parent: Criterion, left: Operand, range: OperandPair, not: bool): Rendered
    requires (parent.Between? || parent.NotBetween?) && left == parent.left && range == parent.range
    decreases parent, 1
  {
    var l :- OperandParts(env, left);
    var start :- OperandParts(env, range.first);
    var end :- OperandParts(env, range.second);
    Ok(l + Keyword(not, " not") + [Text(" between ")] + start + [Text(" and ")] + end)
  }

  function InListParts(env: Env, ghost parent: Criterion, left: Operand, list: seq<Operand>, not: bool): Rendered
    requires (parent.InList? || parent.NotInList?) && left == parent.left && list == parent.list
    decreases parent, 1
  {
    var l :- OperandParts(env, left);
    var items :- if |list| == 0 then Ok([Text("null")]) else OperandsFrom(env, list, 0);
    Ok(l + Keyword(not, " not") + [Text(" in (")] + items + [Text(")")])
  }

  /** Operands i.. of an IN list, separated by ", ". */
  function OperandsFrom(env: Env, list: seq<Operand>, i: nat): Rendered
    requires i <= |list|
    decreases list, 0, |list| - i
  {
    if i == |list| then Ok([])
    else
      var p :- OperandParts(env, list[i]);
      var rest :- OperandsFrom(env, list, i + 1);
      Ok(Keyword(i > 0, ", ") + p + rest)
  }

  function InList2Parts(env: Env, ghost parent: Criterion, leftPair: OperandPair, rows: seq<OperandPair>, not: bool): Rendered
    requires (parent.InList2? || parent.NotInList2?) && leftPair == parent.leftPair && rows == parent.rows
    decreases parent, 1
  {
    if env.dialect.supportsMultipleColumnsInInPredicate then
      var a :- OperandParts(env, leftPair.first);
      var b :- OperandParts(env, leftPair.second);
      var items :- if |rows| == 0 then Ok([Text("(null, null)")]) else TuplesFrom(env, rows, 0);
      Ok([Text("(")] + a + [Text(", ")] + b + [Text(")")] + Keyword(not, " not") + [Text(" in (")] + items + [Text(")")])
    else
      var body :-
        if |rows| == 0 then
          var a :- OperandParts(env, leftPair.first);
          var b :- OperandParts(env, leftPair.second);
          Ok(a + [Text(" = null"), Text(" and ")] + b + [Text(" = null")])
        else
          OrRowsFrom(env, OperandParts(env, leftPair.first), OperandParts(env, leftPair.second), rows, 0);
      Ok(Keyword(not, "not ") + [Text("(")] + body + [Text(")")])
  }

  /** One row of a two-column IN list: `(v1, v2)`. */
  function TupleParts(env: Env, row: OperandPair): Rendered
    decreases row, 1
  {
    var a :- OperandParts(env, row.first);
    var b :- OperandParts(env, row.second);
    Ok([Text("(")] + a + [Text(", ")] + b + [Text(")")])
  }

  function TuplesFrom(env: Env, rows: seq<OperandPair>, i: nat): Rendered
    requires i <= |rows|
    decreases rows, 0, |rows| - i
  {
    if i == |rows| then Ok([])
    else
      var p :- TupleParts(env, rows[i]);
      var rest :- TuplesFrom(env, rows, i + 1);
      Ok(Keyword(i > 0, ", ") + p + rest)
  }

  /**
   * One row of the OR expansion: `(a = v1 and b = v2)`, where `first` and `second` are
   * the renderings of the left columns a and b, repeated in every row.
   */
  function OrRowParts(env: Env, first: Rendered, second: Rendered, row: OperandPair): Rendered
    decreases row, 1
  {
    var a :- first;
    var x :- OperandParts(env, row.first);
    var b :- second;
    var y :- OperandParts(env, row.second);
    Ok([Text("(")] + a + [Text(" = ")] + x + [Text(" and ")] + b + [Text(" = ")] + y + [Text(")")])
  }

  function OrRowsFrom(env: Env, first: Rendered, second: Rendered, rows: seq<OperandPair>, i: nat): Rendered
    requires i <= |rows|
    decreases rows, 0, |rows| - i
  {
    if i == |rows| then Ok([])
    else
      var p :- OrRowParts(env, first, second, rows[i]);
      var rest :- OrRowsFrom(env, first, second, rows, i + 1);
      Ok(Keyword(i > 0, " or ") + p + rest)
  }

  function InSubQueryParts(env: Env, ghost parent: Criterion, left: Operand, q: SubqueryExpression, not: bool): Rendered
    requires (parent.InSubQuery? || parent.NotInSubQuery?) && left == parent.left
    decreases parent, 1
  {
    var l :- OperandParts(env, left);
    Ok(l + Keyword(not, " not") + [Text(" in (")] + SubqueryStatement(env, q).parts + [Text(")")])
  }

  function InSubQuery2Parts(env: Env, ghost parent: Criterion, leftPair: OperandPair, q: SubqueryExpression, not: bool): Rendered
    requires (parent.InSubQuery2? || parent.NotInSubQuery2?) && leftPair == parent.leftPair
    decreases parent, 1
  {
    if !env.dialect.supportsMultipleColumnsInInPredicate then Err(UnsupportedOperation)
    else
      var a :- OperandParts(env, leftPair.first);
      var b :- OperandParts(env, leftPair.second);
      Ok([Text("(")] + a + [Text(", ")] + b + [Text(")")] + Keyword(not, " not") +
         [Text(" in (")] + SubqueryStatement(env, q).parts + [Text(")")])
  }

  function ExistsParts(env: Env, q: SubqueryExpression, not: bool): Rendered {
    Ok(Keyword(not, "not ") + [Text("exists (")] + SubqueryStatement(env, q).parts + [Text(")")])
  }

  /** The parenthesised group of an AND/OR; the operator before it is written by CriterionAt. */
  function LogicalBinaryParts(env: Env, ghost parent: Criterion, criteria: seq<Criterion>): Rendered
    requires (parent.And? || parent.Or?) && criteria == parent.criteria
    decreases parent, 1
  {
    if |criteria| == 0 then Ok([])
    else Prepend([Text("(")], Append(CriteriaFrom(env, criteria, 0), [Text(")")]))
  }

  function NotParts(env: Env, ghost parent: Criterion, criteria: seq<Criterion>): Rendered
    requires parent.Not? && criteria == parent.criteria
    decreases parent, 1
  {
    if |criteria| == 0 then Ok([])
    else Prepend([Text("not "), Text("(")], Append(CriteriaFrom(env, criteria, 0), [Text(")")]))
  }

  /** An AND/OR with at least one criterion: the only criteria that read what precedes them. */
  predicate IsLogicalGroup(c: Criterion) {
    (c.And? || c.Or?) && |c.criteria| > 0
  }

  function LogicalOperator(c: Criterion): string
    requires c.And? || c.Or?
  {
    if c.And? then "and" else "or"
  }

  /** What stands between criterion i-1 and criterion i of a conjunction. */
  function Separator(c: Criterion): string {
    if IsLogicalGroup(c) then " " + LogicalOperator(c) + " " else " and "
  }

  /** Criteria i.. of a conjunction with their separators. */
  function CriteriaFrom(env: Env, criteria: seq<Criterion>, i: nat): Rendered
    requires i <= |criteria|
    decreases criteria, 0, |criteria| - i
  {
    if i == |criteria| then Ok([])
    else
      var p :- CriterionParts(env, criteria[i]);
      var rest :- CriteriaFrom(env, criteria, i + 1);
      Ok(Keyword(i > 0, Separator(criteria[i])) + p + rest)
  }


  /**
   * The whole buffer after visiting criterion `c` at position `index` of its list, given
   * the buffer `before`. A non-empty AND/OR at a positive index first cuts back the five
   * characters before it, and at any non-zero index writes its operator.
   */
  function CriterionAt(env: Env, index: int, c: Criterion, before: Parts): Rendered {
    if IsLogicalGroup(c) then
      var cut :- if index > 0 then CutBackOrFail(before, 5) else Ok(before);
      Prepend(cut + Keyword(index != 0, " " + LogicalOperator(c) + " "), CriterionParts(env, c))
    else
      Prepend(before, CriterionParts(env, c))
  }

  /**
   * Inside a conjunction loop, visiting criterion i after the " and " written behind
   * criterion i-1 yields that separator replaced by the criterion's own.
   */
  lemma CriterionInConjunction(env: Env, i: nat, c: Criterion, prefix: Parts)
    ensures CriterionAt(env, i, c, prefix + Keyword(i > 0, " and ")) ==
            Prepend(prefix + Keyword(i > 0, Separator(c)), CriterionParts(env, c))
  {
    if IsLogicalGroup(c) && i > 0 {
      CutBackAfterAppend(prefix, " and ");
      assert Keyword(true, " " + LogicalOperator(c) + " ") == [Text(Separator(c))];
    } else if i == 0 {
      assert prefix + Keyword(false, " and ") == prefix;
    }
  }
}
