/**
 * Every visit only appends: the buffer a visit leaves is the buffer it was given followed
 * by the rendering Render describes, and it fails exactly when that rendering does.
 *
 * For lists this is where "append each item and its separator, then cut the last
 * separator back" is shown to be "items with a separator between each two of them".
 * The one visit that reads what precedes it, a non-empty AND/OR at a positive index,
 * agrees with CriterionAt instead.
 */
module Agreement {
  import opened Wrappers
  import opened Statements
  import opened Expressions
  import opened Render
  import opened Emitted

  // ---------------------------------------------------------------- regrouping appends

  /*
   * A visit appends its pieces one at a time, so the buffer it leaves is grouped from the
   * left; Render groups the same pieces into one rendering first. These lemmas regroup.
   * Each is a plain fact about sequences that Dafny proves on its own; stated apart with
   * explicit arguments, it keeps the solver from searching for the regrouping inside the
   * large contexts of the agreement proofs below.
   */

  lemma Regroup2(b: Parts, p1: Parts, p2: Parts)
    ensures b + (p1 + p2) == b + p1 + p2
  {
  }

  lemma Regroup3(b: Parts, p1: Parts, p2: Parts, p3: Parts)
    ensures b + (p1 + p2 + p3) == b + p1 + p2 + p3
  {
  }

  lemma Regroup4(b: Parts, p1: Parts, p2: Parts, p3: Parts, p4: Parts)
    ensures b + (p1 + p2 + p3 + p4) == b + p1 + p2 + p3 + p4
  {
  }

  lemma Regroup5(b: Parts, p1: Parts, p2: Parts, p3: Parts, p4: Parts, p5: Parts)
    ensures b + (p1 + p2 + p3 + p4 + p5) == b + p1 + p2 + p3 + p4 + p5
  {
  }

  lemma Regroup6(b: Parts, p1: Parts, p2: Parts, p3: Parts, p4: Parts, p5: Parts, p6: Parts)
    ensures b + (p1 + p2 + p3 + p4 + p5 + p6) == b + p1 + p2 + p3 + p4 + p5 + p6
  {
  }

  lemma Regroup9(b: Parts, p1: Parts, p2: Parts, p3: Parts, p4: Parts, p5: Parts, p6: Parts, p7: Parts, p8: Parts, p9: Parts)
    ensures b + (p1 + p2 + p3 + p4 + p5 + p6 + p7 + p8 + p9) == b + p1 + p2 + p3 + p4 + p5 + p6 + p7 + p8 + p9
  {
  }

  /** A rendering wrapped between an opening and a closing piece. */
  lemma RegroupWrapped(b: Parts, open: Parts, inner: Parts, close: Parts)
    ensures b + (open + (inner + close)) == b + open + inner + close
  {
  }

  lemma RegroupMod(b: Parts, l: Parts, r: Parts)
    ensures b + [Text("(")] + [Text("mod(")] + l + [Text(", ")] + r + [Text(")")] + [Text(")")] ==
            b + ([Text("("), Text("mod(")] + l + [Text(", ")] + r + [Text(")"), Text(")")])
  {
  }

  lemma RegroupLike(b: Parts, l: Parts, k: Parts, pattern: StatementPart, escape: StatementPart)
    ensures b + l + k + [Text(" like ")] + [pattern] + [Text(" escape ")] + [escape] ==
            b + (l + k + [Text(" like "), pattern, Text(" escape "), escape])
  {
  }

  lemma RegroupNullPair(b: Parts, k: Parts, x: Parts, y: Parts)
    ensures b + k + [Text("(")] + x + [Text(" = null")] + [Text(" and ")] + y + [Text(" = null")] + [Text(")")] ==
            b + (k + [Text("(")] + (x + [Text(" = null"), Text(" and ")] + y + [Text(" = null")]) + [Text(")")])
  {
  }

  lemma RegroupNot(b: Parts, inner: Parts)
    ensures b + [Text("not ")] + [Text("(")] + inner + [Text(")")] == b + ([Text("not "), Text("(")] + (inner + [Text(")")]))
  {
  }

  /** A text written only when `flag` holds extends the buffer by Keyword(flag, t). */
  lemma Optional(flag: bool, b: Parts, t: string)
    ensures (if flag then b + [Text(t)] else b) == b + Keyword(flag, t)
  {
    if !flag {
      assert b + [] == b;
    }
  }

  lemma NoParts(b: Parts)
    ensures b + [] == b
  {
  }

  // ---------------------------------------------------------------- tables and columns

  lemma TableAgrees(env: Env, t: TableExpression, nameType: TableNameType, b: Parts)
    ensures TableInto(env, t, nameType, b) == Prepend(b, TableParts(env, t, nameType))
  {
    if nameType.NameAndAlias? && t in env.aliases {
      var name := env.metamodel.tableName(t);
      var alias := env.aliases[t];
      if IsBlank(alias) {
        NoParts([Text(name)]);
      } else {
        var k := Keyword(env.dialect.supportsAsKeywordForTableAlias, " as");
        Optional(env.dialect.supportsAsKeywordForTableAlias, b + [Text(name)], " as");
        Regroup3(b, [Text(name)], k, [Text(" " + alias)]);
        assert [Text(name)] + k + [Text(" " + alias)] == [Text(name)] + (k + [Text(" " + alias)]);
      }
    }
  }

  lemma {:induction false} ColumnAgrees(env: Env, e: ColumnExpression, b: Parts)
    ensures ColumnInto(env, e, b) == Prepend(b, ColumnParts(env, e))
    decreases e, 2
  {
    match e
    case AliasExpression(_, _) => AliasAgrees(env, e, b);
    case ArithmeticExpression(a) => ArithmeticAgrees(env, a, b);
    case CaseExpression(_, _) => CaseAgrees(env, e, b);
    case LiteralExpression(_) =>
    case RandomFunction =>
    case ScalarExpression(s) => ScalarAgrees(env, s, b);
    case StringFunction(f) => StringFunctionAgrees(env, f, b);
    case PropertyExpression(_, _, _) =>
  }

  lemma {:induction false} AliasAgrees(env: Env, e: ColumnExpression, b: Parts)
    requires e.AliasExpression?
    ensures AliasInto(env, e, b) == Prepend(b, AliasParts(env, e))
    decreases e, 1
  {
    ColumnAgrees(env, e.expression, b);
    var inner := ColumnParts(env, e.expression);
    if inner.Ok? {
      Regroup2(b, inner.value, [Text(" as " + env.dialect.enquote(e.alias))]);
    }
  }

  lemma {:induction false} ArithmeticAgrees(env: Env, a: Arithmetic, b: Parts)
    ensures ArithmeticInto(env, a, b) == Prepend(b, ArithmeticParts(env, a))
    decreases a, 1
  {
    var mod := a.Mod? && !env.dialect.supportsModuloOperator;
    var start := if mod then b + [Text("(")] + [Text("mod(")] else b + [Text("(")];
    OperandAgrees(env, a.left, start);
    var l := OperandParts(env, a.left);
    if l.Ok? {
      var middle := if mod then [Text(", ")] else [Text(ArithmeticSymbol(a))];
      OperandAgrees(env, a.right, start + l.value + middle);
      var r := OperandParts(env, a.right);
      if r.Ok? {
        if mod {
          RegroupMod(b, l.value, r.value);
        } else {
          Regroup5(b, [Text("(")], l.value, middle, r.value, [Text(")")]);
        }
      }
    }
  }

  lemma {:induction false} CaseAgrees(env: Env, e: ColumnExpression, b: Parts)
    requires e.CaseExpression?
    ensures CaseInto(env, e, b) == Prepend(b, CaseParts(env, e))
    decreases e, 1
  {
    var b0 := b + [Text("case")];
    WhensAgrees(env, e.whenList, 0, b0);
    var whens := WhensFrom(env, e.whenList, 0);
    if whens.Ok? {
      var b1 := b0 + whens.value;
      match e.otherwise {
        case None =>
          NoParts(b1);
          Regroup4(b, [Text("case")], whens.value, [], [Text(" end")]);
        case Some(o) =>
          ColumnAgrees(env, o, b1 + [Text(" else ")]);
          var other := ColumnParts(env, o);
          if other.Ok? {
            Regroup2(b1, [Text(" else ")], other.value);
            Regroup4(b, [Text("case")], whens.value, [Text(" else ")] + other.value, [Text(" end")]);
          }
      }
    }
  }

  lemma {:induction false} WhensAgrees(env: Env, whens: seq<When>, i: nat, b: Parts)
    requires i <= |whens|
    ensures WhensInto(env, whens, i, b) == Prepend(b, WhensFrom(env, whens, i))
    decreases whens, 0, |whens| - i
  {
    if i == |whens| {
      NoParts(b);
    } else {
      WhenAgrees(env, whens[i], b);
      var w := WhenParts(env, whens[i]);
      if w.Ok? {
        WhensAgrees(env, whens, i + 1, b + w.value);
        var rest := WhensFrom(env, whens, i + 1);
        if rest.Ok? {
          Regroup2(b, w.value, rest.value);
        }
      }
    }
  }

  lemma {:induction false} WhenAgrees(env: Env, w: When, b: Parts)
    ensures WhenInto(env, w, b) == Prepend(b, WhenParts(env, w))
    decreases w, 1
  {
    if |w.criteria| == 0 {
      NoParts(b);
    } else {
      var b0 := b + [Text(" when ")];
      ConjunctionAgrees(env, w.criteria, b0);
      var cs := CriteriaFrom(env, w.criteria, 0);
      if cs.Ok? {
        OperandAgrees(env, w.thenOperand, b0 + cs.value + [Text(" then ")]);
        var t := OperandParts(env, w.thenOperand);
        if t.Ok? {
          Regroup4(b, [Text(" when ")], cs.value, [Text(" then ")], t.value);
        }
      }
    }
  }

  lemma {:induction false} ScalarAgrees(env: Env, s: Scalar, b: Parts)
    ensures ScalarInto(env, s, b) == Prepend(b, ScalarParts(env, s))
    decreases s, 1
  {
    match s
    case AggregateFunction(a) => AggregateAgrees(env, a, b);
    case ScalarQueryExpression(q) =>
      Regroup3(b, [Text("(")], SubqueryStatement(env, q).parts, [Text(")")]);
  }

  lemma {:induction false} AggregateAgrees(env: Env, a: Aggregate, b: Parts)
    ensures AggregateInto(env, a, b) == Prepend(b, AggregateParts(env, a))
    decreases a, 1
  {
    if !a.CountAsterisk? {
      ColumnAgrees(env, a.expression, b + [Text(AggregateOpening(a))]);
      var inner := ColumnParts(env, a.expression);
      if inner.Ok? {
        Regroup3(b, [Text(AggregateOpening(a))], inner.value, [Text(")")]);
      }
    }
  }

  lemma {:induction false} StringFunctionAgrees(env: Env, f: StringFunctionCall, b: Parts)
    ensures StringFunctionInto(env, f, b) == Prepend(b, StringFunctionParts(env, f))
    decreases f, 3
  {
    StringCallAgrees(env, f, b + [Text("(")]);
    var call := StringCallParts(env, f);
    if call.Ok? {
      RegroupWrapped(b, [Text("(")], call.value, [Text(")")]);
    }
  }

  lemma {:induction false} StringCallAgrees(env: Env, f: StringFunctionCall, b: Parts)
    ensures StringCallInto(env, f, b) == Prepend(b, StringCallParts(env, f))
    decreases f, 2
  {
    match f {
      case Lower(o) => UnaryCallAgrees(env, "lower(", o, b);
      case Ltrim(o) => UnaryCallAgrees(env, "ltrim(", o, b);
      case Rtrim(o) => UnaryCallAgrees(env, "rtrim(", o, b);
      case Trim(o) => UnaryCallAgrees(env, "trim(", o, b);
      case Upper(o) => UnaryCallAgrees(env, "upper(", o, b);
      case Concat(l, r) => ConcatAgrees(env, f, b);
      case Substring(_, _, _) => SubstringAgrees(env, f, b);
    }
  }

  /** A one-argument call `name(o)`. */
  lemma {:induction false} UnaryCallAgrees(env: Env, name: string, o: Operand, b: Parts)
    ensures var c1 := OperandInto(env, o, b + [Text(name)]);
            (if c1.Ok? then Ok(c1.value + [Text(")")]) else Err(c1.error)) ==
            Prepend(b, Prepend([Text(name)], Append(OperandParts(env, o), [Text(")")])))
    decreases o, 3
  {
    OperandAgrees(env, o, b + [Text(name)]);
    var p := OperandParts(env, o);
    if p.Ok? {
      RegroupWrapped(b, [Text(name)], p.value, [Text(")")]);
    }
  }

  lemma {:induction false} ConcatAgrees(env: Env, f: StringFunctionCall, b: Parts)
    requires f.Concat?
    ensures StringCallInto(env, f, b) == Prepend(b, StringCallParts(env, f))
    decreases f, 0
  {
    var b1 := b + [Text("concat(")];
    OperandAgrees(env, f.left, b1);
    var x := OperandParts(env, f.left);
    if x.Ok? {
      OperandAgrees(env, f.right, b1 + x.value + [Text(", ")]);
      var y := OperandParts(env, f.right);
      if y.Ok? {
        Regroup5(b, [Text("concat(")], x.value, [Text(", ")], y.value, [Text(")")]);
      }
    }
  }

  lemma {:induction false} SubstringAgrees(env: Env, f: StringFunctionCall, b: Parts)
    requires f.Substring?
    ensures StringCallInto(env, f, b) == Prepend(b, StringCallParts(env, f))
    decreases f, 1
  {
    var name := [Text(env.dialect.substringFunction + "(")];
    OperandAgrees(env, f.target, b + name);
    var x := OperandParts(env, f.target);
    if x.Ok? {
      var c1 := b + name + x.value + [Text(", ")];
      OperandAgrees(env, f.startIndex, c1);
      var y := OperandParts(env, f.startIndex);
      if y.Ok? {
        SubstringLengthAgrees(env, f, c1 + y.value);
        var length := SubstringLengthParts(env, f);
        if length.Ok? {
          Regroup6(b, name, x.value, [Text(", ")], y.value, length.value, [Text(")")]);
        }
      }
    }
  }

  lemma {:induction false} SubstringLengthAgrees(env: Env, f: StringFunctionCall, b: Parts)
    requires f.Substring?
    ensures SubstringLengthInto(env, f, b) == Prepend(b, SubstringLengthParts(env, f))
    decreases f, 0
  {
    match f.length {
      case Some(o) =>
        OperandAgrees(env, o, b + [Text(", ")]);
        var p := OperandParts(env, o);
        if p.Ok? {
          Regroup2(b, [Text(", ")], p.value);
        }
      case None =>
        NoParts(b);
    }
  }

  lemma {:induction false} OperandAgrees(env: Env, o: Operand, b: Parts)
    ensures OperandInto(env, o, b) == Prepend(b, OperandParts(env, o))
    decreases o, 2
  {
    match o
    case Column(e) => ColumnAgrees(env, e, b);
    case Argument(_, _) =>
  }

  // ---------------------------------------------------------------- criteria

  lemma {:induction false} CriterionAgrees(env: Env, index: int, c: Criterion, b: Parts)
    ensures CriterionInto(env, index, c, b) == CriterionAt(env, index, c, b)
    decreases c, 5
  {
    if IsComparison(c) {
      ComparisonAgrees(env, index, c, b);
    } else if IsOperandPredicate(c) {
      OperandPredicateAgrees(env, index, c, b);
    } else {
      CompoundAgrees(env, index, c, b);
    }
  }

  lemma {:induction false} ComparisonAgrees(env: Env, index: int, c: Criterion, b: Parts)
    requires IsComparison(c)
    ensures CriterionInto(env, index, c, b) == CriterionAt(env, index, c, b)
    decreases c, 4
  {
    match c
    case Eq(l, r) => BinaryAgrees(env, c, l, r, "=", b);
    case NotEq(l, r) => BinaryAgrees(env, c, l, r, "<>", b);
    case Less(l, r) => BinaryAgrees(env, c, l, r, "<", b);
    case LessEq(l, r) => BinaryAgrees(env, c, l, r, "<=", b);
    case Greater(l, r) => BinaryAgrees(env, c, l, r, ">", b);
    case GreaterEq(l, r) => BinaryAgrees(env, c, l, r, ">=", b);
  }

  lemma {:induction false} OperandPredicateAgrees(env: Env, index: int, c: Criterion, b: Parts)
    requires IsOperandPredicate(c) && !IsComparison(c)
    ensures CriterionInto(env, index, c, b) == CriterionAt(env, index, c, b)
    decreases c, 4
  {
    match c
    case IsNull(l) => IsNullAgrees(env, c, l, false, b);
    case IsNotNull(l) => IsNullAgrees(env, c, l, true, b);
    case Like(l, p) => LikeAgrees(env, c, l, p, false, b);
    case NotLike(l, p) => LikeAgrees(env, c, l, p, true, b);
    case Between(l, r) => BetweenAgrees(env, c, l, r, false, b);
    case NotBetween(l, r) => BetweenAgrees(env, c, l, r, true, b);
  }

  lemma {:induction false} CompoundAgrees(env: Env, index: int, c: Criterion, b: Parts)
    requires !IsOperandPredicate(c)
    ensures CompoundInto(env, index, c, b) == CriterionAt(env, index, c, b)
    decreases c, 4
  {
    match c
    case InList(l, r) => InListAgrees(env, c, l, r, false, b);
    case NotInList(l, r) => InListAgrees(env, c, l, r, true, b);
    case InList2(l, r) => InList2Agrees(env, c, l, r, false, b);
    case NotInList2(l, r) => InList2Agrees(env, c, l, r, true, b);
    case InSubQuery(l, q) => InSubQueryAgrees(env, c, l, q, false, b);
    case NotInSubQuery(l, q) => InSubQueryAgrees(env, c, l, q, true, b);
    case InSubQuery2(l, q) => InSubQuery2Agrees(env, c, l, q, false, b);
    case NotInSubQuery2(l, q) => InSubQuery2Agrees(env, c, l, q, true, b);
    case Exists(q) => ExistsAgrees(env, q, false, b);
    case NotExists(q) => ExistsAgrees(env, q, true, b);
    case And(cs) => LogicalBinaryAgrees(env, c, cs, index, b);
    case Or(cs) => LogicalBinaryAgrees(env, c, cs, index, b);
    case Not(cs) => NotAgrees(env, c, cs, b);
  }

  lemma {:induction false} BinaryAgrees(env: Env, parent: Criterion, left: Operand, right: Operand, operator: string, b: Parts)
    requires IsComparison(parent) && left == parent.left && right == parent.right
    ensures BinaryInto(env, parent, left, right, operator, b) == Prepend(b, BinaryParts(env, parent, left, right, operator))
    decreases parent, 3
  {
    OperandAgrees(env, left, b);
    var l := OperandParts(env, left);
    if l.Ok? {
      var op := [Text(" " + operator + " ")];
      OperandAgrees(env, right, b + l.value + op);
      var r := OperandParts(env, right);
      if r.Ok? {
        Regroup3(b, l.value, op, r.value);
      }
    }
  }

  lemma {:induction false} IsNullAgrees(env: Env, parent: Criterion, left: Operand, not: bool, b: Parts)
    requires (parent.IsNull? || parent.IsNotNull?) && left == parent.left
    ensures IsNullInto(env, parent, left, not, b) == Prepend(b, IsNullParts(env, parent, left, not))
    decreases parent, 3
  {
    OperandAgrees(env, left, b);
    var l := OperandParts(env, left);
    if l.Ok? {
      Regroup2(b, l.value, [Text(if not then " is not null" else " is null")]);
    }
  }

  lemma {:induction false} LikeAgrees(env: Env, parent: Criterion, left: Operand, pattern: EscapeExpression, not: bool, b: Parts)
    requires (parent.Like? || parent.NotLike?) && left == parent.left
    ensures LikeInto(env, parent, left, pattern, not, b) == Prepend(b, LikeParts(env, parent, left, pattern, not))
    decreases parent, 3
  {
    OperandAgrees(env, left, b);
    var l := OperandParts(env, left);
    if l.Ok? {
      Optional(not, b + l.value, " not");
      var escapeSequence := FinalEscapeSequence(env);
      var newValue := EscapeText(pattern, env.dialect, escapeSequence);
      RegroupLike(b, l.value, Keyword(not, " not"), ValuePart(Value(Str(newValue), OperandMasking(left))),
                  ValuePart(Value(Str(escapeSequence), false)));
    }
  }

  lemma {:induction false} BetweenAgrees(env: Env, parent: Criterion, left: Operand, range: OperandPair, not: bool, b: Parts)
    requires (parent.Between? || parent.NotBetween?) && left == parent.left && range == parent.range
    ensures BetweenInto(env, parent, left, range, not, b) == Prepend(b, BetweenParts(env, parent, left, range, not))
    decreases parent, 3
  {
    OperandAgrees(env, left, b);
    var l := OperandParts(env, left);
    if l.Ok? {
      Optional(not, b + l.value, " not");
      var k := Keyword(not, " not");
      OperandAgrees(env, range.first, b + l.value + k + [Text(" between ")]);
      var s := OperandParts(env, range.first);
      if s.Ok? {
        OperandAgrees(env, range.second, b + l.value + k + [Text(" between ")] + s.value + [Text(" and ")]);
        var e := OperandParts(env, range.second);
        if e.Ok? {
          Regroup6(b, l.value, k, [Text(" between ")], s.value, [Text(" and ")], e.value);
        }
      }
    }
  }

  lemma {:induction false} InListAgrees(env: Env, parent: Criterion, left: Operand, list: seq<Operand>, not: bool, b: Parts)
    requires (parent.InList? || parent.NotInList?) && left == parent.left && list == parent.list
    ensures InListInto(env, parent, left, list, not, b) == Prepend(b, InListParts(env, parent, left, list, not))
    decreases parent, 3
  {
    OperandAgrees(env, left, b);
    var l := OperandParts(env, left);
    if l.Ok? {
      Optional(not, b + l.value, " not");
      var k := Keyword(not, " not");
      var b3 := b + l.value + k + [Text(" in (")];
      if |list| == 0 {
        Regroup5(b, l.value, k, [Text(" in (")], [Text("null")], [Text(")")]);
      } else {
        NoParts(b3);
        OperandsAgrees(env, list, 0, b3);
        var items := OperandsFrom(env, list, 0);
        if items.Ok? {
          CutBackAfterAppend(b3 + items.value, ", ");
          Regroup5(b, l.value, k, [Text(" in (")], items.value, [Text(")")]);
        }
      }
    }
  }

  /** Appending each operand and ", " from index i on is the separated list followed by one ", ". */
  lemma {:induction false} OperandsAgrees(env: Env, list: seq<Operand>, i: nat, x: Parts)
    requires 0 < |list| && i <= |list|
    ensures OperandsInto(env, list, i, x + Keyword(i > 0, ", ")) ==
            Append(Prepend(x, OperandsFrom(env, list, i)), [Text(", ")])
    decreases list, 0, |list| - i
  {
    var k := Keyword(i > 0, ", ");
    if i == |list| {
      NoParts(x);
    } else {
      OperandAgrees(env, list[i], x + k);
      var p := OperandParts(env, list[i]);
      if p.Ok? {
        OperandsAgrees(env, list, i + 1, x + k + p.value);
        var rest := OperandsFrom(env, list, i + 1);
        if rest.Ok? {
          Regroup3(x, k, p.value, rest.value);
        }
      }
    }
  }

  lemma {:induction false} InList2Agrees(env: Env, parent: Criterion, leftPair: OperandPair, rows: seq<OperandPair>, not: bool, b: Parts)
    requires (parent.InList2? || parent.NotInList2?) && leftPair == parent.leftPair && rows == parent.rows
    ensures InList2Into(env, parent, leftPair, rows, not, b) == Prepend(b, InList2Parts(env, parent, leftPair, rows, not))
    decreases parent, 3
  {
    if env.dialect.supportsMultipleColumnsInInPredicate {
      RowValueAgrees(env, parent, leftPair, rows, not, b);
    } else if |rows| == 0 {
      NullPairAgrees(env, parent, leftPair, rows, not, b);
    } else {
      OrRowListAgrees(env, parent, leftPair, rows, not, b);
    }
  }

  lemma {:induction false} RowValueAgrees(env: Env, parent: Criterion, leftPair: OperandPair, rows: seq<OperandPair>, not: bool, b: Parts)
    requires (parent.InList2? || parent.NotInList2?) && leftPair == parent.leftPair && rows == parent.rows
    requires env.dialect.supportsMultipleColumnsInInPredicate
    ensures RowValueInListInto(env, parent, leftPair, rows, not, b) == Prepend(b, InList2Parts(env, parent, leftPair, rows, not))
    decreases parent, 2
  {
    OperandAgrees(env, leftPair.first, b + [Text("(")]);
    var x := OperandParts(env, leftPair.first);
    if x.Ok? {
      OperandAgrees(env, leftPair.second, b + [Text("(")] + x.value + [Text(", ")]);
      var y := OperandParts(env, leftPair.second);
      if y.Ok? {
        var b3 := b + [Text("(")] + x.value + [Text(", ")] + y.value + [Text(")")];
        Optional(not, b3, " not");
        var k := Keyword(not, " not");
        var b5 := b3 + k + [Text(" in (")];
        var items := if |rows| == 0 then Ok([Text("(null, null)")]) else TuplesFrom(env, rows, 0);
        if |rows| > 0 {
          NoParts(b5);
          TuplesAgrees(env, rows, 0, b5);
          if items.Ok? {
            CutBackAfterAppend(b5 + items.value, ", ");
          }
        }
        if items.Ok? {
          Regroup9(b, [Text("(")], x.value, [Text(", ")], y.value, [Text(")")], k, [Text(" in (")], items.value, [Text(")")]);
        }
      }
    }
  }

  lemma {:induction false} TuplesAgrees(env: Env, rows: seq<OperandPair>, i: nat, x: Parts)
    requires 0 < |rows| && i <= |rows|
    ensures TuplesInto(env, rows, i, x + Keyword(i > 0, ", ")) ==
            Append(Prepend(x, TuplesFrom(env, rows, i)), [Text(", ")])
    decreases rows, 0, |rows| - i
  {
    var k := Keyword(i > 0, ", ");
    if i == |rows| {
      NoParts(x);
    } else {
      TupleAgrees(env, rows[i], x + k);
      var p := TupleParts(env, rows[i]);
      if p.Ok? {
        TuplesAgrees(env, rows, i + 1, x + k + p.value);
        var rest := TuplesFrom(env, rows, i + 1);
        if rest.Ok? {
          Regroup3(x, k, p.value, rest.value);
        }
      }
    }
  }

  lemma {:induction false} TupleAgrees(env: Env, row: OperandPair, b: Parts)
    ensures TupleInto(env, row, b) == Prepend(b, TupleParts(env, row))
    decreases row, 1
  {
    OperandAgrees(env, row.first, b + [Text("(")]);
    var x := OperandParts(env, row.first);
    if x.Ok? {
      OperandAgrees(env, row.second, b + [Text("(")] + x.value + [Text(", ")]);
      var y := OperandParts(env, row.second);
      if y.Ok? {
        Regroup5(b, [Text("(")], x.value, [Text(", ")], y.value, [Text(")")]);
      }
    }
  }

  /** The OR expansion of an empty list: both left columns compared with null. */
  lemma {:induction false} NullPairAgrees(env: Env, parent: Criterion, leftPair: OperandPair, rows: seq<OperandPair>, not: bool, b: Parts)
    requires (parent.InList2? || parent.NotInList2?) && leftPair == parent.leftPair && rows == parent.rows
    requires !env.dialect.supportsMultipleColumnsInInPredicate && |rows| == 0
    ensures ExpandedInListInto(env, parent, leftPair, rows, not, b) == Prepend(b, InList2Parts(env, parent, leftPair, rows, not))
    decreases parent, 1
  {
    Optional(not, b, "not ");
    var k := Keyword(not, "not ");
    OperandAgrees(env, leftPair.first, b + k + [Text("(")]);
    var x := OperandParts(env, leftPair.first);
    if x.Ok? {
      OperandAgrees(env, leftPair.second, b + k + [Text("(")] + x.value + [Text(" = null")] + [Text(" and ")]);
      var y := OperandParts(env, leftPair.second);
      if y.Ok? {
        RegroupNullPair(b, k, x.value, y.value);
      }
    }
  }

  /** The OR expansion of a non-empty list: one parenthesised pair of equalities per row. */
  lemma {:induction false} OrRowListAgrees(env: Env, parent: Criterion, leftPair: OperandPair, rows: seq<OperandPair>, not: bool, b: Parts)
    requires (parent.InList2? || parent.NotInList2?) && leftPair == parent.leftPair && rows == parent.rows
    requires !env.dialect.supportsMultipleColumnsInInPredicate && |rows| > 0
    ensures ExpandedInListInto(env, parent, leftPair, rows, not, b) == Prepend(b, InList2Parts(env, parent, leftPair, rows, not))
    decreases parent, 1
  {
    Optional(not, b, "not ");
    var k := Keyword(not, "not ");
    var b2 := b + k + [Text("(")];
    NoParts(b2);
    OrRowsAgrees(env, parent, leftPair, rows, 0, b2);
    var body := OrRowsFrom(env, OperandParts(env, leftPair.first), OperandParts(env, leftPair.second), rows, 0);
    if body.Ok? {
      CutBackAfterAppend(b2 + body.value, " or ");
      Regroup4(b, k, [Text("(")], body.value, [Text(")")]);
    }
  }

  lemma {:induction false} OrRowsAgrees(env: Env, parent: Criterion, leftPair: OperandPair, rows: seq<OperandPair>, i: nat, x: Parts)
    requires (parent.InList2? || parent.NotInList2?) && leftPair == parent.leftPair && rows == parent.rows
    requires 0 < |rows| && i <= |rows|
    ensures OrRowsInto(env, parent, leftPair, rows, i, x + Keyword(i > 0, " or ")) ==
            Append(Prepend(x, OrRowsFrom(env, OperandParts(env, leftPair.first), OperandParts(env, leftPair.second), rows, i)),
                   [Text(" or ")])
    decreases parent, 1, |rows| - i
  {
    var first := OperandParts(env, leftPair.first);
    var second := OperandParts(env, leftPair.second);
    var k := Keyword(i > 0, " or ");
    if i == |rows| {
      NoParts(x);
    } else {
      OrRowAgrees(env, parent, leftPair, rows[i], x + k);
      var p := OrRowParts(env, first, second, rows[i]);
      if p.Ok? {
        OrRowsAgrees(env, parent, leftPair, rows, i + 1, x + k + p.value);
        var rest := OrRowsFrom(env, first, second, rows, i + 1);
        if rest.Ok? {
          Regroup3(x, k, p.value, rest.value);
        }
      }
    }
  }

  lemma {:induction false} OrRowAgrees(env: Env, parent: Criterion, leftPair: OperandPair, row: OperandPair, b: Parts)
    requires (parent.InList2? || parent.NotInList2?) && leftPair == parent.leftPair && row in parent.rows
    ensures OrRowInto(env, parent, leftPair, row, b) ==
            Prepend(b, OrRowParts(env, OperandParts(env, leftPair.first), OperandParts(env, leftPair.second), row))
    decreases parent, 0
  {
    OperandAgrees(env, leftPair.first, b + [Text("(")]);
    var a := OperandParts(env, leftPair.first);
    if a.Ok? {
      var b1 := b + [Text("(")] + a.value + [Text(" = ")];
      OperandAgrees(env, row.first, b1);
      var x := OperandParts(env, row.first);
      if x.Ok? {
        var b2 := b1 + x.value + [Text(" and ")];
        OperandAgrees(env, leftPair.second, b2);
        var c := OperandParts(env, leftPair.second);
        if c.Ok? {
          OperandAgrees(env, row.second, b2 + c.value + [Text(" = ")]);
          var y := OperandParts(env, row.second);
          if y.Ok? {
            Regroup9(b, [Text("(")], a.value, [Text(" = ")], x.value, [Text(" and ")], c.value, [Text(" = ")], y.value, [Text(")")]);
          }
        }
      }
    }
  }

  lemma {:induction false} InSubQueryAgrees(env: Env, parent: Criterion, left: Operand, q: SubqueryExpression, not: bool, b: Parts)
    requires (parent.InSubQuery? || parent.NotInSubQuery?) && left == parent.left
    ensures InSubQueryInto(env, parent, left, q, not, b) == Prepend(b, InSubQueryParts(env, parent, left, q, not))
    decreases parent, 3
  {
    OperandAgrees(env, left, b);
    var l := OperandParts(env, left);
    if l.Ok? {
      Optional(not, b + l.value, " not");
      Regroup5(b, l.value, Keyword(not, " not"), [Text(" in (")], SubqueryStatement(env, q).parts, [Text(")")]);
    }
  }

  lemma {:induction false} InSubQuery2Agrees(env: Env, parent: Criterion, leftPair: OperandPair, q: SubqueryExpression, not: bool, b: Parts)
    requires (parent.InSubQuery2? || parent.NotInSubQuery2?) && leftPair == parent.leftPair
    ensures InSubQuery2Into(env, parent, leftPair, q, not, b) == Prepend(b, InSubQuery2Parts(env, parent, leftPair, q, not))
    decreases parent, 3
  {
    if env.dialect.supportsMultipleColumnsInInPredicate {
      OperandAgrees(env, leftPair.first, b + [Text("(")]);
      var x := OperandParts(env, leftPair.first);
      if x.Ok? {
        OperandAgrees(env, leftPair.second, b + [Text("(")] + x.value + [Text(", ")]);
        var y := OperandParts(env, leftPair.second);
        if y.Ok? {
          var b3 := b + [Text("(")] + x.value + [Text(", ")] + y.value + [Text(")")];
          Optional(not, b3, " not");
          Regroup9(b, [Text("(")], x.value, [Text(", ")], y.value, [Text(")")], Keyword(not, " not"),
                   [Text(" in (")], SubqueryStatement(env, q).parts, [Text(")")]);
        }
      }
    }
  }

  lemma ExistsAgrees(env: Env, q: SubqueryExpression, not: bool, b: Parts)
    ensures Ok(ExistsInto(env, q, not, b)) == Prepend(b, ExistsParts(env, q, not))
  {
    Optional(not, b, "not ");
    Regroup4(b, Keyword(not, "not "), [Text("exists (")], SubqueryStatement(env, q).parts, [Text(")")]);
  }

  lemma {:induction false} LogicalBinaryAgrees(env: Env, parent: Criterion, criteria: seq<Criterion>, index: int, b: Parts)
    requires (parent.And? || parent.Or?) && criteria == parent.criteria
    ensures LogicalBinaryInto(env, parent, LogicalOperator(parent), criteria, index, b) == CriterionAt(env, index, parent, b)
    decreases parent, 3
  {
    assert CriterionParts(env, parent) == LogicalBinaryParts(env, parent, criteria);
    if |criteria| == 0 {
      NoParts(b);
    } else {
      var cut := if index > 0 then CutBackOrFail(b, 5) else Ok(b);
      if cut.Ok? {
        var operator := " " + LogicalOperator(parent) + " ";
        Optional(index != 0, cut.value, operator);
        var b2 := cut.value + Keyword(index != 0, operator);
        ConjunctionAgrees(env, criteria, b2 + [Text("(")]);
        var cs := CriteriaFrom(env, criteria, 0);
        if cs.Ok? {
          RegroupWrapped(b2, [Text("(")], cs.value, [Text(")")]);
        }
      }
    }
  }

  lemma {:induction false} NotAgrees(env: Env, parent: Criterion, criteria: seq<Criterion>, b: Parts)
    requires parent.Not? && criteria == parent.criteria
    ensures NotInto(env, parent, criteria, b) == Prepend(b, NotParts(env, parent, criteria))
    decreases parent, 3
  {
    if |criteria| == 0 {
      NoParts(b);
    } else {
      ConjunctionAgrees(env, criteria, b + [Text("not ")] + [Text("(")]);
      var cs := CriteriaFrom(env, criteria, 0);
      if cs.Ok? {
        RegroupNot(b, cs.value);
      }
    }
  }

  /** A conjunction loop followed by its cut-back leaves the criteria with their separators only between them. */
  lemma {:induction false} ConjunctionAgrees(env: Env, criteria: seq<Criterion>, x: Parts)
    requires 0 < |criteria|
    ensures ConjunctionInto(env, criteria, x) == Prepend(x, CriteriaFrom(env, criteria, 0))
    decreases criteria, 1
  {
    NoParts(x);
    CriteriaAgrees(env, criteria, 0, x);
    var cs := CriteriaFrom(env, criteria, 0);
    if cs.Ok? {
      CutBackAfterAppend(x + cs.value, " and ");
    }
  }

  lemma {:induction false} CriteriaAgrees(env: Env, criteria: seq<Criterion>, i: nat, x: Parts)
    requires 0 < |criteria| && i <= |criteria|
    ensures CriteriaInto(env, criteria, i, x + Keyword(i > 0, " and ")) ==
            Append(Prepend(x, CriteriaFrom(env, criteria, i)), [Text(" and ")])
    decreases criteria, 0, |criteria| - i
  {
    if i == |criteria| {
      NoParts(x);
    } else {
      var c := criteria[i];
      CriterionAgrees(env, i, c, x + Keyword(i > 0, " and "));
      CriterionInConjunction(env, i, c, x);
      var k := Keyword(i > 0, Separator(c));
      var p := CriterionParts(env, c);
      if p.Ok? {
        CriteriaAgrees(env, criteria, i + 1, x + k + p.value);
        var rest := CriteriaFrom(env, criteria, i + 1);
        if rest.Ok? {
          Regroup3(x, k, p.value, rest.value);
        }
      }
    }
  }
}
