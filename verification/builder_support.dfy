/**
 * The visitor that renders expressions and criteria into a shared statement buffer.
 *
 * Each visit appends to the buffer exactly the parts its rendering function in Render
 * yields, and fails with that function's error; a thrown exception of the original is a
 * `Fail` outcome here, passed on by `:-`.
 */
module Builder {
  import opened Wrappers
  import opened Statements
  import opened Expressions
  import opened Render
  import opened Emitted
  import opened Buffers

  class BuilderSupport {
    const dialect: Dialect
    /** The alias manager's assignment of aliases to tables in scope. */
    const aliases: map<TableExpression, string>
    const buf: StatementBuffer
    /** The escape sequence for LIKE patterns given at construction, if any. */
    const escapeSequence: Option<string>
    const metamodel: Metamodel
    const subqueries: SubqueryBuilders

    constructor (dialect: Dialect, aliases: map<TableExpression, string>, buf: StatementBuffer,
                 escapeSequence: Option<string>, metamodel: Metamodel, subqueries: SubqueryBuilders)
      ensures this.dialect == dialect && this.aliases == aliases && this.buf == buf
      ensures this.escapeSequence == escapeSequence && this.metamodel == metamodel
      ensures this.subqueries == subqueries
    {
      this.dialect := dialect;
      this.aliases := aliases;
      this.buf := buf;
      this.escapeSequence := escapeSequence;
      this.metamodel := metamodel;
      this.subqueries := subqueries;
    }

    /** The environment the rendering functions read. */
    function Environment(): Env {
      Env(dialect, aliases, escapeSequence, metamodel, subqueries)
    }

    method VisitTableExpression(t: TableExpression, nameType: TableNameType) returns (r: Outcome<BuildError>)
      modifies buf
      ensures r == Status(TableInto(Environment(), t, nameType, old(buf.parts)))
      ensures r.Pass? ==> buf.parts == TableInto(Environment(), t, nameType, old(buf.parts)).value
    {
      var name := metamodel.tableName(t);
      match nameType {
        case NameOnly =>
          buf.AppendText(name);
        case AliasOnly =>
          if t !in aliases {
            return Fail(AliasNotFound(t));
          }
          buf.AppendText(aliases[t]);
        case NameAndAlias =>
          buf.AppendText(name);
          if t !in aliases {
            return Fail(AliasNotFound(t));
          }
          var alias := aliases[t];
          if !IsBlank(alias) {
            if dialect.supportsAsKeywordForTableAlias {
              buf.AppendText(" as");
            }
            buf.AppendText(" " + alias);
          }
      }
      return Pass;
    }

    method VisitColumnExpression(e: ColumnExpression) returns (r: Outcome<BuildError>)
      modifies buf
      ensures r == Status(ColumnInto(Environment(), e, old(buf.parts)))
      ensures r.Pass? ==> buf.parts == ColumnInto(Environment(), e, old(buf.parts)).value
      decreases e, 2
    {
      match e
      case AliasExpression(_, _) =>
        r := VisitAliasExpression(e);
      case ArithmeticExpression(a) =>
        r := VisitArithmeticExpression(a);
      case CaseExpression(_, _) =>
        r := VisitCaseExpression(e);
      case LiteralExpression(_) =>
        VisitLiteralExpression(e);
        r := Pass;
      case RandomFunction =>
        VisitMathematicalFunction(e);
        r := Pass;
      case ScalarExpression(s) =>
        r := VisitScalarExpression(s);
      case StringFunction(f) =>
        r := VisitStringFunction(f);
      case PropertyExpression(owner, _, _) =>
        var name := metamodel.columnName(e);
        if owner !in aliases {
          return Fail(AliasNotFound(owner));
        }
        var alias := aliases[owner];
        if IsBlank(alias) {
          buf.AppendText(name);
        } else {
          buf.AppendText(alias + "." + name);
        }
        r := Pass;
    }

    method VisitAliasExpression(e: ColumnExpression) returns (r: Outcome<BuildError>)
      requires e.AliasExpression?
      modifies buf
      ensures r == Status(AliasInto(Environment(), e, old(buf.parts)))
      ensures r.Pass? ==> buf.parts == AliasInto(Environment(), e, old(buf.parts)).value
      decreases e, 1
    {
      r := VisitColumnExpression(e.expression);
      if r.Fail? {
        return;
      }
      buf.AppendText(" as " + dialect.enquote(e.alias));
      return Pass;
    }

    method VisitArithmeticExpression(a: Arithmetic) returns (r: Outcome<BuildError>)
      modifies buf
      ensures r == Status(ArithmeticInto(Environment(), a, old(buf.parts)))
      ensures r.Pass? ==> buf.parts == ArithmeticInto(Environment(), a, old(buf.parts)).value
      decreases a, 1
    {
      buf.AppendText("(");
      if a.Mod? && !dialect.supportsModuloOperator {
        buf.AppendText("mod(");
        :- VisitOperand(a.left);
        buf.AppendText(", ");
        :- VisitOperand(a.right);
        buf.AppendText(")");
      } else {
        :- VisitOperand(a.left);
        buf.AppendText(ArithmeticSymbol(a));
        :- VisitOperand(a.right);
      }
      buf.AppendText(")");
      return Pass;
    }

    method VisitCaseExpression(e: ColumnExpression) returns (r: Outcome<BuildError>)
      requires e.CaseExpression?
      modifies buf
      ensures r == Status(CaseInto(Environment(), e, old(buf.parts)))
      ensures r.Pass? ==> buf.parts == CaseInto(Environment(), e, old(buf.parts)).value
      decreases e, 1
    {
      buf.AppendText("case");
      ghost var start := buf.parts;
      var whens := e.whenList;
      var k := 0;
      while k < |whens|
        invariant 0 <= k <= |whens|
        invariant WhensInto(Environment(), whens, 0, start) == WhensInto(Environment(), whens, k, buf.parts)
      {
        var w := whens[k];
        if |w.criteria| > 0 {
          buf.AppendText(" when ");
          :- VisitConjunction(w.criteria);
          buf.AppendText(" then ");
          :- VisitOperand(w.thenOperand);
        }
        k := k + 1;
      }
      if e.otherwise.Some? {
        buf.AppendText(" else ");
        :- VisitColumnExpression(e.otherwise.value);
      }
      buf.AppendText(" end");
      return Pass;
    }

    method VisitLiteralExpression(e: ColumnExpression)
      requires e.LiteralExpression?
      modifies buf
      ensures buf.parts == old(buf.parts) + [Text(dialect.formatValue(e.literal))]
    {
      buf.AppendText(dialect.formatValue(e.literal));
    }

    method VisitMathematicalFunction(e: ColumnExpression)
      requires e.RandomFunction?
      modifies buf
      ensures buf.parts == old(buf.parts) + [Text(dialect.randomFunction + "()")]
    {
      buf.AppendText(dialect.randomFunction + "()");
    }

    method VisitScalarExpression(s: Scalar) returns (r: Outcome<BuildError>)
      modifies buf
      ensures r == Status(ScalarInto(Environment(), s, old(buf.parts)))
      ensures r.Pass? ==> buf.parts == ScalarInto(Environment(), s, old(buf.parts)).value
      decreases s, 1
    {
      match s
      case AggregateFunction(a) =>
        r := VisitAggregateFunction(a);
      case ScalarQueryExpression(q) =>
        VisitScalarQueryExpression(q);
        r := Pass;
    }

    method VisitAggregateFunction(a: Aggregate) returns (r: Outcome<BuildError>)
      modifies buf
      ensures r == Status(AggregateInto(Environment(), a, old(buf.parts)))
      ensures r.Pass? ==> buf.parts == AggregateInto(Environment(), a, old(buf.parts)).value
      decreases a, 1
    {
      if a.CountAsterisk? {
        buf.AppendText("count(*)");
      } else {
        buf.AppendText(AggregateOpening(a));
        :- VisitColumnExpression(a.expression);
        buf.AppendText(")");
      }
      return Pass;
    }

    method VisitScalarQueryExpression(q: SubqueryExpression)
      modifies buf
      ensures buf.parts == ScalarInto(Environment(), ScalarQueryExpression(q), old(buf.parts)).value
    {
      buf.AppendText("(");
      var statement := BuildSubqueryStatement(q, AllColumns);
      buf.AppendStatement(statement);
      buf.AppendText(")");
    }

    /**
     * Builds a nested query with the builder's dialect, in a scope chained to its aliases;
     * `projectionPredicate` decides which columns it projects (the visitors pass AllColumns).
     */
    method BuildSubqueryStatement(q: SubqueryExpression, projectionPredicate: ColumnExpression -> bool)
      returns (statement: Statement)
      ensures q.SelectQuery? ==> statement == subqueries.select(q.select, aliases, projectionPredicate)
      ensures q.SetOperationQuery? ==> statement == subqueries.setOperation(q.setOperation, aliases, projectionPredicate)
      ensures projectionPredicate == AllColumns ==> statement == SubqueryStatement(Environment(), q)
    {
      match q
      case SelectQuery(context) =>
        statement := subqueries.select(context, aliases, projectionPredicate);
      case SetOperationQuery(context) =>
        statement := subqueries.setOperation(context, aliases, projectionPredicate);
    }

    method VisitStringFunction(f: StringFunctionCall) returns (r: Outcome<BuildError>)
      modifies buf
      ensures r == Status(StringFunctionInto(Environment(), f, old(buf.parts)))
      ensures r.Pass? ==> buf.parts == StringFunctionInto(Environment(), f, old(buf.parts)).value
      decreases f, 2
    {
      buf.AppendText("(");
      :- VisitStringCall(f);
      buf.AppendText(")");
      return Pass;
    }

    /** The call inside the parentheses of a string function. */
    method VisitStringCall(f: StringFunctionCall) returns (r: Outcome<BuildError>)
      modifies buf
      ensures r == Status(StringCallInto(Environment(), f, old(buf.parts)))
      ensures r.Pass? ==> buf.parts == StringCallInto(Environment(), f, old(buf.parts)).value
      decreases f, 1
    {
      match f {
        case Concat(left, right) =>
          buf.AppendText("concat(");
          :- VisitOperand(left);
          buf.AppendText(", ");
          :- VisitOperand(right);
          buf.AppendText(")");
        case Lower(o) =>
          buf.AppendText("lower(");
          :- VisitOperand(o);
          buf.AppendText(")");
        case Ltrim(o) =>
          buf.AppendText("ltrim(");
          :- VisitOperand(o);
          buf.AppendText(")");
        case Rtrim(o) =>
          buf.AppendText("rtrim(");
          :- VisitOperand(o);
          buf.AppendText(")");
        case Substring(target, startIndex, _) =>
          buf.AppendText(dialect.substringFunction + "(");
          :- VisitOperand(target);
          buf.AppendText(", ");
          :- VisitOperand(startIndex);
          :- VisitSubstringLength(f);
          buf.AppendText(")");
        case Trim(o) =>
          buf.AppendText("trim(");
          :- VisitOperand(o);
          buf.AppendText(")");
        case Upper(o) =>
          buf.AppendText("upper(");
          :- VisitOperand(o);
          buf.AppendText(")");
      }
      return Pass;
    }

    /** The optional length argument of SUBSTRING. */
    method VisitSubstringLength(f: StringFunctionCall) returns (r: Outcome<BuildError>)
      requires f.Substring?
      modifies buf
      ensures r == Status(SubstringLengthInto(Environment(), f, old(buf.parts)))
      ensures r.Pass? ==> buf.parts == SubstringLengthInto(Environment(), f, old(buf.parts)).value
      decreases f, 0
    {
      if f.length.None? {
        if dialect.defaultLengthForSubstringFunction.Some? {
          buf.AppendText(", " + IntToString(dialect.defaultLengthForSubstringFunction.value));
        }
      } else {
        buf.AppendText(", ");
        :- VisitOperand(f.length.value);
      }
      return Pass;
    }

    method VisitOperand(o: Operand) returns (r: Outcome<BuildError>)
      modifies buf
      ensures r == Status(OperandInto(Environment(), o, old(buf.parts)))
      ensures r.Pass? ==> buf.parts == OperandInto(Environment(), o, old(buf.parts)).value
      decreases o, 2
    {
      match o
      case Column(e) =>
        r := VisitColumnExpression(e);
      case Argument(_, _) =>
        buf.Bind(ArgumentValue(o));
        r := Pass;
    }

    /** Visits criterion `c` standing at position `index` of its list. */
    method VisitCriterion(index: int, c: Criterion) returns (r: Outcome<BuildError>)
      modifies buf
      ensures Reflects(r, buf.parts, CriterionInto(Environment(), index, c, old(buf.parts)))
      decreases c, 5
    {
      match c
      case Eq(left, right) => r := Binary(c, left, right, "=");
      case NotEq(left, right) => r := Binary(c, left, right, "<>");
      case Less(left, right) => r := Binary(c, left, right, "<");
      case LessEq(left, right) => r := Binary(c, left, right, "<=");
      case Greater(left, right) => r := Binary(c, left, right, ">");
      case GreaterEq(left, right) => r := Binary(c, left, right, ">=");
      case IsNull(left) => r := IsNull(c, left, false);
      case IsNotNull(left) => r := IsNull(c, left, true);
      case Like(left, pattern) => r := Like(c, left, pattern, false);
      case NotLike(left, pattern) => r := Like(c, left, pattern, true);
      case Between(left, range) => r := Between(c, left, range, false);
      case NotBetween(left, range) => r := Between(c, left, range, true);
      case _ => r := VisitCompound(index, c);
    }

    /** The second half of the dispatch: criteria over lists, subqueries and nested criteria. */
    method VisitCompound(index: int, c: Criterion) returns (r: Outcome<BuildError>)
      requires !IsOperandPredicate(c)
      modifies buf
      ensures Reflects(r, buf.parts, CompoundInto(Environment(), index, c, old(buf.parts)))
      decreases c, 4
    {
      match c
      case InList(left, list) => r := InList(c, left, list, false);
      case NotInList(left, list) => r := InList(c, left, list, true);
      case InList2(leftPair, rows) => r := InList2(c, leftPair, rows, false);
      case NotInList2(leftPair, rows) => r := InList2(c, leftPair, rows, true);
      case InSubQuery(left, q) => r := InSubQuery(c, left, q, false);
      case NotInSubQuery(left, q) => r := InSubQuery(c, left, q, true);
      case InSubQuery2(leftPair, q) => r := InSubQuery2(c, leftPair, q, false);
      case NotInSubQuery2(leftPair, q) => r := InSubQuery2(c, leftPair, q, true);
      case Exists(q) => Exists(q, false); r := Pass;
      case NotExists(q) => Exists(q, true); r := Pass;
      case And(criteria) => r := LogicalBinary(c, "and", criteria, index);
      case Or(criteria) => r := LogicalBinary(c, "or", criteria, index);
      case Not(criteria) => r := Not(c, criteria);
    }

    method Binary(ghost parent: Criterion, left: Operand, right: Operand, operator: string) returns (r: Outcome<BuildError>)
      requires IsComparison(parent) && left == parent.left && right == parent.right
      modifies buf
      ensures r == Status(BinaryInto(Environment(), parent, left, right, operator, old(buf.parts)))
      ensures r.Pass? ==> buf.parts == BinaryInto(Environment(), parent, left, right, operator, old(buf.parts)).value
      decreases parent, 3
    {
      r := VisitOperand(left);
      if r.Fail? {
        return;
      }
      buf.AppendText(" " + operator + " ");
      :- VisitOperand(right);
      return Pass;
    }

    method IsNull(ghost parent: Criterion, left: Operand, not: bool) returns (r: Outcome<BuildError>)
      requires (parent.IsNull? || parent.IsNotNull?) && left == parent.left
      modifies buf
      ensures r == Status(IsNullInto(Environment(), parent, left, not, old(buf.parts)))
      ensures r.Pass? ==> buf.parts == IsNullInto(Environment(), parent, left, not, old(buf.parts)).value
      decreases parent, 3
    {
      r := VisitOperand(left);
      if r.Fail? {
        return;
      }
      var predicate_ := if not then " is not null" else " is null";
      buf.AppendText(predicate_);
      return Pass;
    }

    method Like(ghost parent: Criterion, left: Operand, pattern: EscapeExpression, not: bool) returns (r: Outcome<BuildError>)
      requires (parent.Like? || parent.NotLike?) && left == parent.left
      modifies buf
      ensures r == Status(LikeInto(Environment(), parent, left, pattern, not, old(buf.parts)))
      ensures r.Pass? ==> buf.parts == LikeInto(Environment(), parent, left, pattern, not, old(buf.parts)).value
      decreases parent, 3
    {
      r := VisitOperand(left);
      if r.Fail? {
        return;
      }
      if not {
        buf.AppendText(" not");
      }
      buf.AppendText(" like ");
      var finalEscapeSequence := escapeSequence.GetOr(dialect.escapeSequence);
      var newValue := EscapeText(pattern, dialect, finalEscapeSequence);
      buf.Bind(Value(Str(newValue), OperandMasking(left)));
      buf.AppendText(" escape ");
      buf.Bind(Value(Str(finalEscapeSequence), false));
      return Pass;
    }

    method Between(ghost parent: Criterion, left: Operand, range: OperandPair, not: bool) returns (r: Outcome<BuildError>)
      requires (parent.Between? || parent.NotBetween?) && left == parent.left && range == parent.range
      modifies buf
      ensures r == Status(BetweenInto(Environment(), parent, left, range, not, old(buf.parts)))
      ensures r.Pass? ==> buf.parts == BetweenInto(Environment(), parent, left, range, not, old(buf.parts)).value
      decreases parent, 3
    {
      r := VisitOperand(left);
      if r.Fail? {
        return;
      }
      if not {
        buf.AppendText(" not");
      }
      buf.AppendText(" between ");
      :- VisitOperand(range.first);
      buf.AppendText(" and ");
      :- VisitOperand(range.second);
      return Pass;
    }

    method InList(ghost parent: Criterion, left: Operand, list: seq<Operand>, not: bool) returns (r: Outcome<BuildError>)
      requires (parent.InList? || parent.NotInList?) && left == parent.left && list == parent.list
      modifies buf
      ensures r == Status(InListInto(Environment(), parent, left, list, not, old(buf.parts)))
      ensures r.Pass? ==> buf.parts == InListInto(Environment(), parent, left, list, not, old(buf.parts)).value
      decreases parent, 3
    {
      r := VisitOperand(left);
      if r.Fail? {
        return;
      }
      if not {
        buf.AppendText(" not");
      }
      buf.AppendText(" in (");
      if |list| == 0 {
        buf.AppendText("null");
      } else {
        ghost var start := buf.parts;
        var i := 0;
        while i < |list|
          invariant 0 <= i <= |list|
          invariant OperandsInto(Environment(), list, 0, start) == OperandsInto(Environment(), list, i, buf.parts)
        {
          :- VisitOperand(list[i]);
          buf.AppendText(", ");
          i := i + 1;
        }
        var cut := buf.CutBack(2);
        if cut.Fail? {
          return Fail(CutBackFailed(cut.error));
        }
      }
      buf.AppendText(")");
      return Pass;
    }

    method InList2(ghost parent: Criterion, leftPair: OperandPair, rows: seq<OperandPair>, not: bool) returns (r: Outcome<BuildError>)
      requires (parent.InList2? || parent.NotInList2?) && leftPair == parent.leftPair && rows == parent.rows
      modifies buf
      ensures r == Status(InList2Into(Environment(), parent, leftPair, rows, not, old(buf.parts)))
      ensures r.Pass? ==> buf.parts == InList2Into(Environment(), parent, leftPair, rows, not, old(buf.parts)).value
      decreases parent, 3
    {
      if dialect.supportsMultipleColumnsInInPredicate {
        r := RowValueInList(parent, leftPair, rows, not);
      } else {
        r := ExpandedInList(parent, leftPair, rows, not);
      }
    }

    method RowValueInList(ghost parent: Criterion, leftPair: OperandPair, rows: seq<OperandPair>, not: bool) returns (r: Outcome<BuildError>)
      requires (parent.InList2? || parent.NotInList2?) && leftPair == parent.leftPair && rows == parent.rows
      modifies buf
      ensures r == Status(RowValueInListInto(Environment(), parent, leftPair, rows, not, old(buf.parts)))
      ensures r.Pass? ==> buf.parts == RowValueInListInto(Environment(), parent, leftPair, rows, not, old(buf.parts)).value
      decreases parent, 2
    {
      buf.AppendText("(");
      :- VisitOperand(leftPair.first);
      buf.AppendText(", ");
      :- VisitOperand(leftPair.second);
      buf.AppendText(")");
      if not {
        buf.AppendText(" not");
      }
      buf.AppendText(" in (");
      if |rows| == 0 {
        buf.AppendText("(null, null)");
      } else {
        ghost var start := buf.parts;
        var i := 0;
        while i < |rows|
          invariant 0 <= i <= |rows|
          invariant TuplesInto(Environment(), rows, 0, start) == TuplesInto(Environment(), rows, i, buf.parts)
        {
          :- Row(rows[i]);
          buf.AppendText(", ");
          i := i + 1;
        }
        var cut := buf.CutBack(2);
        if cut.Fail? {
          return Fail(CutBackFailed(cut.error));
        }
      }
      buf.AppendText(")");
      return Pass;
    }

    method ExpandedInList(ghost parent: Criterion, leftPair: OperandPair, rows: seq<OperandPair>, not: bool) returns (r: Outcome<BuildError>)
      requires (parent.InList2? || parent.NotInList2?) && leftPair == parent.leftPair && rows == parent.rows
      modifies buf
      ensures r == Status(ExpandedInListInto(Environment(), parent, leftPair, rows, not, old(buf.parts)))
      ensures r.Pass? ==> buf.parts == ExpandedInListInto(Environment(), parent, leftPair, rows, not, old(buf.parts)).value
      decreases parent, 2
    {
      if not {
        buf.AppendText("not ");
      }
      buf.AppendText("(");
      if |rows| == 0 {
        :- VisitOperand(leftPair.first);
        buf.AppendText(" = null");
        buf.AppendText(" and ");
        :- VisitOperand(leftPair.second);
        buf.AppendText(" = null");
      } else {
        ghost var start := buf.parts;
        var i := 0;
        while i < |rows|
          invariant 0 <= i <= |rows|
          invariant OrRowsInto(Environment(), parent, leftPair, rows, 0, start) ==
            OrRowsInto(Environment(), parent, leftPair, rows, i, buf.parts)
        {
          :- OrRow(parent, leftPair, rows[i]);
          buf.AppendText(" or ");
          i := i + 1;
        }
        var cut := buf.CutBack(4);
        if cut.Fail? {
          return Fail(CutBackFailed(cut.error));
        }
      }
      buf.AppendText(")");
      return Pass;
    }

    /** One row value of a two-column IN list: `(v1, v2)`. */
    method Row(row: OperandPair) returns (r: Outcome<BuildError>)
      modifies buf
      ensures r == Status(TupleInto(Environment(), row, old(buf.parts)))
      ensures r.Pass? ==> buf.parts == TupleInto(Environment(), row, old(buf.parts)).value
      decreases row, 1
    {
      buf.AppendText("(");
      :- VisitOperand(row.first);
      buf.AppendText(", ");
      :- VisitOperand(row.second);
      buf.AppendText(")");
      return Pass;
    }

    /** One row of the OR expansion: `(a = v1 and b = v2)`, the left columns visited again. */
    method OrRow(ghost parent: Criterion, leftPair: OperandPair, row: OperandPair) returns (r: Outcome<BuildError>)
      requires (parent.InList2? || parent.NotInList2?) && leftPair == parent.leftPair && row in parent.rows
      modifies buf
      ensures r == Status(OrRowInto(Environment(), parent, leftPair, row, old(buf.parts)))
      ensures r.Pass? ==> buf.parts == OrRowInto(Environment(), parent, leftPair, row, old(buf.parts)).value
      decreases parent, 0
    {
      buf.AppendText("(");
      :- VisitOperand(leftPair.first);
      buf.AppendText(" = ");
      :- VisitOperand(row.first);
      buf.AppendText(" and ");
      :- VisitOperand(leftPair.second);
      buf.AppendText(" = ");
      :- VisitOperand(row.second);
      buf.AppendText(")");
      return Pass;
    }

    method InSubQuery(ghost parent: Criterion, left: Operand, q: SubqueryExpression, not: bool) returns (r: Outcome<BuildError>)
      requires (parent.InSubQuery? || parent.NotInSubQuery?) && left == parent.left
      modifies buf
      ensures r == Status(InSubQueryInto(Environment(), parent, left, q, not, old(buf.parts)))
      ensures r.Pass? ==> buf.parts == InSubQueryInto(Environment(), parent, left, q, not, old(buf.parts)).value
      decreases parent, 3
    {
      r := VisitOperand(left);
      if r.Fail? {
        return;
      }
      if not {
        buf.AppendText(" not");
      }
      buf.AppendText(" in (");
      var statement := BuildSubqueryStatement(q, AllColumns);
      buf.AppendStatement(statement);
      buf.AppendText(")");
      return Pass;
    }

    method InSubQuery2(ghost parent: Criterion, leftPair: OperandPair, q: SubqueryExpression, not: bool) returns (r: Outcome<BuildError>)
      requires (parent.InSubQuery2? || parent.NotInSubQuery2?) && leftPair == parent.leftPair
      modifies buf
      ensures r == Status(InSubQuery2Into(Environment(), parent, leftPair, q, not, old(buf.parts)))
      ensures r.Pass? ==> buf.parts == InSubQuery2Into(Environment(), parent, leftPair, q, not, old(buf.parts)).value
      ensures !dialect.supportsMultipleColumnsInInPredicate ==> r == Fail(UnsupportedOperation) && buf.parts == old(buf.parts)
      decreases parent, 3
    {
      if !dialect.supportsMultipleColumnsInInPredicate {
        return Fail(UnsupportedOperation);
      }
      buf.AppendText("(");
      :- VisitOperand(leftPair.first);
      buf.AppendText(", ");
      :- VisitOperand(leftPair.second);
      buf.AppendText(")");
      if not {
        buf.AppendText(" not");
      }
      buf.AppendText(" in (");
      var statement := BuildSubqueryStatement(q, AllColumns);
      buf.AppendStatement(statement);
      buf.AppendText(")");
      return Pass;
    }

    method Exists(q: SubqueryExpression, not: bool)
      modifies buf
      ensures buf.parts == ExistsInto(Environment(), q, not, old(buf.parts))
    {
      if not {
        buf.AppendText("not ");
      }
      buf.AppendText("exists (");
      var statement := BuildSubqueryStatement(q, AllColumns);
      buf.AppendStatement(statement);
      buf.AppendText(")");
    }

    /**
     * A non-empty AND/OR group at position `index`: it replaces the " and " written after
     * the previous criterion by its own operator, then writes its criteria in parentheses.
     */
    method LogicalBinary(ghost parent: Criterion, operator: string, criteria: seq<Criterion>, index: int)
      returns (r: Outcome<BuildError>)
      requires (parent.And? || parent.Or?) && criteria == parent.criteria
      modifies buf
      ensures r == Status(LogicalBinaryInto(Environment(), parent, operator, criteria, index, old(buf.parts)))
      ensures r.Pass? ==> buf.parts == LogicalBinaryInto(Environment(), parent, operator, criteria, index, old(buf.parts)).value
      decreases parent, 3
    {
      if |criteria| > 0 {
        if index > 0 {
          var cut := buf.CutBack(5);
          if cut.Fail? {
            return Fail(CutBackFailed(cut.error));
          }
        }
        if index != 0 {
          buf.AppendText(" " + operator + " ");
        }
        buf.AppendText("(");
        :- VisitConjunction(criteria);
        buf.AppendText(")");
      }
      return Pass;
    }

    method Not(ghost parent: Criterion, criteria: seq<Criterion>) returns (r: Outcome<BuildError>)
      requires parent.Not? && criteria == parent.criteria
      modifies buf
      ensures r == Status(NotInto(Environment(), parent, criteria, old(buf.parts)))
      ensures r.Pass? ==> buf.parts == NotInto(Environment(), parent, criteria, old(buf.parts)).value
      decreases parent, 3
    {
      if |criteria| > 0 {
        buf.AppendText("not ");
        buf.AppendText("(");
        :- VisitConjunction(criteria);
        buf.AppendText(")");
      }
      return Pass;
    }

    /**
     * The loop shared by WHEN branches, AND/OR groups and NOT: each criterion is visited
     * with its index and followed by " and ", and the last " and " is cut back.
     */
    method VisitConjunction(criteria: seq<Criterion>) returns (r: Outcome<BuildError>)
      modifies buf
      ensures r == Status(ConjunctionInto(Environment(), criteria, old(buf.parts)))
      ensures r.Pass? ==> buf.parts == ConjunctionInto(Environment(), criteria, old(buf.parts)).value
      decreases criteria, 1
    {
      ghost var start := buf.parts;
      var i := 0;
      while i < |criteria|
        invariant 0 <= i <= |criteria|
        invariant CriteriaInto(Environment(), criteria, 0, start) == CriteriaInto(Environment(), criteria, i, buf.parts)
      {
        :- VisitCriterion(i, criteria[i]);
        buf.AppendText(" and ");
        i := i + 1;
      }
      var cut := buf.CutBack(5);
      if cut.Fail? {
        return Fail(CutBackFailed(cut.error));
      }
      return Pass;
    }
  }
}
