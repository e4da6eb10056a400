/**
 * The values a rendering binds, defined a second time without any SQL text: every
 * argument leaf, every LIKE pattern and escape sequence, and the values of every nested
 * query, in the order a left-to-right walk of the tree meets them. The lemmas show that
 * the bound parts of each rendering are exactly these values, in this order.
 */
module LeafValues {
  import opened Wrappers
  import opened Statements
  import opened Expressions
  import opened Render

  // ---------------------------------------------------------------- the reference walk

  function SubqueryValues(env: Env, q: SubqueryExpression): seq<Value> {
    BoundValues(SubqueryStatement(env, q).parts)
  }

  function OperandValues(env: Env, o: Operand): seq<Value>
    decreases o, 1
  {
    match o
    case Column(e) => ColumnValues(env, e)
    case Argument(_, _) => [ArgumentValue(o)]
  }

  function PairValues(env: Env, p: OperandPair): seq<Value>
    decreases p, 0
  {
    OperandValues(env, p.first) + OperandValues(env, p.second)
  }

  function ColumnValues(env: Env, e: ColumnExpression): seq<Value>
    decreases e, 0
  {
    match e
    case PropertyExpression(_, _, _) => []
    case AliasExpression(inner, _) => ColumnValues(env, inner)
    case ArithmeticExpression(a) => OperandValues(env, a.left) + OperandValues(env, a.right)
    case CaseExpression(whens, otherwise) =>
      WhensValues(env, whens, 0) + (if otherwise.Some? then ColumnValues(env, otherwise.value) else [])
    case LiteralExpression(_) => []
    case RandomFunction => []
    case ScalarExpression(s) => ScalarValues(env, s)
    case StringFunction(f) => StringFunctionValues(env, f)
  }

  function ScalarValues(env: Env, s: Scalar): seq<Value>
    decreases s, 0
  {
    match s
    case AggregateFunction(a) => if a.CountAsterisk? then [] else ColumnValues(env, a.expression)
    case ScalarQueryExpression(q) => SubqueryValues(env, q)
  }

  function WhensValues(env: Env, whens: seq<When>, i: nat): seq<Value>
    requires i <= |whens|
    decreases whens, |whens| - i
  {
    if i == |whens| then [] else WhenValues(env, whens[i]) + WhensValues(env, whens, i + 1)
  }

  /** A WHEN branch without criteria is skipped, then-operand included. */
  function WhenValues(env: Env, w: When): seq<Value>
    decreases w, 0
  {
    if |w.criteria| == 0 then [] else CriteriaValues(env, w.criteria, 0) + OperandValues(env, w.thenOperand)
  }

  function StringFunctionValues(env: Env, f: StringFunctionCall): seq<Value>
    decreases f, 0
  {
    match f
    case Concat(l, r) => OperandValues(env, l) + OperandValues(env, r)
    case Lower(o) => OperandValues(env, o)
    case Ltrim(o) => OperandValues(env, o)
    case Rtrim(o) => OperandValues(env, o)
    case Substring(t, s, length) =>
      OperandValues(env, t) + OperandValues(env, s) +
      (if length.Some? then OperandValues(env, length.value) else [])
    case Trim(o) => OperandValues(env, o)
    case Upper(o) => OperandValues(env, o)
  }

  /** The two values of a LIKE: the rebuilt pattern, masked like the left operand, then the escape sequence. */
  function LikeValues(env: Env, left: Operand, pattern: EscapeExpression): seq<Value> {
    var escapeSequence := FinalEscapeSequence(env);
    [Value(Str(EscapeText(pattern, env.dialect, escapeSequence)), OperandMasking(left)),
     Value(Str(escapeSequence), false)]
  }

  function CriterionValues(env: Env, c: Criterion): seq<Value>
    decreases c, 1
  {
    match c
    case Eq(l, r) => OperandValues(env, l) + OperandValues(env, r)
    case NotEq(l, r) => OperandValues(env, l) + OperandValues(env, r)
    case Less(l, r) => OperandValues(env, l) + OperandValues(env, r)
    case LessEq(l, r) => OperandValues(env, l) + OperandValues(env, r)
    case Greater(l, r) => OperandValues(env, l) + OperandValues(env, r)
    case GreaterEq(l, r) => OperandValues(env, l) + OperandValues(env, r)
    case IsNull(l) => OperandValues(env, l)
    case IsNotNull(l) => OperandValues(env, l)
    case Like(l, p) => OperandValues(env, l) + LikeValues(env, l, p)
    case NotLike(l, p) => OperandValues(env, l) + LikeValues(env, l, p)
    case Between(l, range) => OperandValues(env, l) + PairValues(env, range)
    case NotBetween(l, range) => OperandValues(env, l) + PairValues(env, range)
    case InList(l, list) => OperandValues(env, l) + OperandListValues(env, list, 0)
    case NotInList(l, list) => OperandValues(env, l) + OperandListValues(env, list, 0)
    case InList2(_, _) => InList2Values(env, c)
    case NotInList2(_, _) => InList2Values(env, c)
    case InSubQuery(l, q) => OperandValues(env, l) + SubqueryValues(env, q)
    case NotInSubQuery(l, q) => OperandValues(env, l) + SubqueryValues(env, q)
    case InSubQuery2(p, q) => PairValues(env, p) + SubqueryValues(env, q)
    case NotInSubQuery2(p, q) => PairValues(env, p) + SubqueryValues(env, q)
    case Exists(q) => SubqueryValues(env, q)
    case NotExists(q) => SubqueryValues(env, q)
    case And(cs) => CriteriaValues(env, cs, 0)
    case Or(cs) => CriteriaValues(env, cs, 0)
    case Not(cs) => CriteriaValues(env, cs, 0)
  }

  /**
   * A two-column IN list: the left pair then every row; expanded into ORs, the left pair's
   * values come again before each row's own.
   */
  function InList2Values(env: Env, c: Criterion): seq<Value>
    requires c.InList2? || c.NotInList2?
    decreases c, 0
  {
    if env.dialect.supportsMultipleColumnsInInPredicate then
      PairValues(env, c.leftPair) + RowsValues(env, c.rows, 0)
    else if |c.rows| == 0 then
      PairValues(env, c.leftPair)
    else
      OrRowsValues(env, OperandValues(env, c.leftPair.first), OperandValues(env, c.leftPair.second), c.rows, 0)
  }

  function OperandListValues(env: Env, list: seq<Operand>, i: nat): seq<Value>
    requires i <= |list|
    decreases list, |list| - i
  {
    if i == |list| then [] else OperandValues(env, list[i]) + OperandListValues(env, list, i + 1)
  }

  function RowsValues(env: Env, rows: seq<OperandPair>, i: nat): seq<Value>
    requires i <= |rows|
    decreases rows, |rows| - i
  {
    if i == |rows| then [] else PairValues(env, rows[i]) + RowsValues(env, rows, i + 1)
  }

  function OrRowsValues(env: Env, first: seq<Value>, second: seq<Value>, rows: seq<OperandPair>, i: nat): seq<Value>
    requires i <= |rows|
    decreases rows, |rows| - i
  {
    if i == |rows| then []
    else
      OrRowValues(env, first, second, rows[i]) + OrRowsValues(env, first, second, rows, i + 1)
  }

  function OrRowValues(env: Env, first: seq<Value>, second: seq<Value>, row: OperandPair): seq<Value>
    decreases row, 0
  {
    first + OperandValues(env, row.first) + second + OperandValues(env, row.second)
  }

  function CriteriaValues(env: Env, criteria: seq<Criterion>, i: nat): seq<Value>
    requires i <= |criteria|
    decreases criteria, |criteria| - i
  {
    if i == |criteria| then [] else CriterionValues(env, criteria[i]) + CriteriaValues(env, criteria, i + 1)
  }

  // ---------------------------------------------------------------- text binds nothing

  predicate TextOnly(ps: Parts) {
    forall k :: 0 <= k < |ps| ==> ps[k].Text?
  }

  lemma {:induction false} TextOnlyValues(ps: Parts)
    requires TextOnly(ps)
    ensures BoundValues(ps) == []
    decreases |ps|
  {
    if ps != [] {
      TextOnlyValues(ps[..|ps| - 1]);
    }
  }

  lemma Prefix(p: Parts, x: Parts)
    requires TextOnly(p)
    ensures BoundValues(p + x) == BoundValues(x)
  {
    BoundValuesConcat(p, x);
    TextOnlyValues(p);
  }

  lemma Suffix(x: Parts, s: Parts)
    requires TextOnly(s)
    ensures BoundValues(x + s) == BoundValues(x)
  {
    BoundValuesConcat(x, s);
    TextOnlyValues(s);
  }

  lemma Around(p: Parts, x: Parts, s: Parts)
    requires TextOnly(p) && TextOnly(s)
    ensures BoundValues(p + x + s) == BoundValues(x)
  {
    Suffix(p + x, s);
    Prefix(p, x);
  }

  lemma Nested(p: Parts, x: Parts, s: Parts)
    requires TextOnly(p) && TextOnly(s)
    ensures BoundValues(p + (x + s)) == BoundValues(x)
  {
    Prefix(p, x + s);
    Suffix(x, s);
  }

  lemma Around4(k: Parts, p: Parts, x: Parts, s: Parts)
    requires TextOnly(k) && TextOnly(p) && TextOnly(s)
    ensures BoundValues(k + p + x + s) == BoundValues(x)
  {
    Suffix(k + p + x, s);
    BoundValuesConcat(k + p, x);
    TextOnlyValues(k + p);
  }

  lemma Join3(a: Parts, m: Parts, b: Parts)
    requires TextOnly(m)
    ensures BoundValues(a + m + b) == BoundValues(a) + BoundValues(b)
  {
    BoundValuesConcat(a + m, b);
    Suffix(a, m);
  }

  /** The pieces of a list: an optional separator, one item, the items after it. */
  lemma Prefixed(k: Parts, a: Parts, b: Parts)
    requires TextOnly(k)
    ensures BoundValues(k + a + b) == BoundValues(a) + BoundValues(b)
  {
    BoundValuesConcat(k + a, b);
    Prefix(k, a);
  }

  lemma Join4(p: Parts, a: Parts, m: Parts, b: Parts)
    requires TextOnly(p) && TextOnly(m)
    ensures BoundValues(p + a + m + b) == BoundValues(a) + BoundValues(b)
  {
    BoundValuesConcat(p + a + m, b);
    Suffix(p + a, m);
    Prefix(p, a);
  }

  lemma Join4Adjacent(p: Parts, a: Parts, b: Parts, s: Parts)
    requires TextOnly(p) && TextOnly(s)
    ensures BoundValues(p + a + b + s) == BoundValues(a) + BoundValues(b)
  {
    Suffix(p + a + b, s);
    BoundValuesConcat(p + a, b);
    Prefix(p, a);
  }

  lemma Join4Closed(a: Parts, m: Parts, b: Parts, s: Parts)
    requires TextOnly(m) && TextOnly(s)
    ensures BoundValues(a + m + b + s) == BoundValues(a) + BoundValues(b)
  {
    Suffix(a + m + b, s);
    Join3(a, m, b);
  }

  lemma Join5(p: Parts, a: Parts, m: Parts, b: Parts, s: Parts)
    requires TextOnly(p) && TextOnly(m) && TextOnly(s)
    ensures BoundValues(p + a + m + b + s) == BoundValues(a) + BoundValues(b)
  {
    Suffix(p + a + m + b, s);
    Join4(p, a, m, b);
  }

  lemma Join5Led(a: Parts, k: Parts, m: Parts, b: Parts, s: Parts)
    requires TextOnly(k) && TextOnly(m) && TextOnly(s)
    ensures BoundValues(a + k + m + b + s) == BoundValues(a) + BoundValues(b)
  {
    Suffix(a + k + m + b, s);
    BoundValuesConcat(a + k + m, b);
    Suffix(a + k, m);
    Suffix(a, k);
  }

  lemma Join6(p: Parts, a: Parts, m: Parts, b: Parts, c: Parts, s: Parts)
    requires TextOnly(p) && TextOnly(m) && TextOnly(s)
    ensures BoundValues(p + a + m + b + c + s) == BoundValues(a) + BoundValues(b) + BoundValues(c)
  {
    Suffix(p + a + m + b + c, s);
    BoundValuesConcat(p + a + m + b, c);
    Join4(p, a, m, b);
  }

  lemma Join6Led(a: Parts, k: Parts, m1: Parts, b: Parts, m2: Parts, c: Parts)
    requires TextOnly(k) && TextOnly(m1) && TextOnly(m2)
    ensures BoundValues(a + k + m1 + b + m2 + c) == BoundValues(a) + (BoundValues(b) + BoundValues(c))
  {
    calc {
      BoundValues(a + k + m1 + b + m2 + c);
      { BoundValuesConcat(a + k + m1 + b + m2, c); }
      BoundValues(a + k + m1 + b + m2) + BoundValues(c);
      { Suffix(a + k + m1 + b, m2); BoundValuesConcat(a + k + m1, b); Suffix(a + k, m1); Suffix(a, k); }
      BoundValues(a) + BoundValues(b) + BoundValues(c);
    }
  }

  lemma Join9(p: Parts, a: Parts, m: Parts, b: Parts, s: Parts, k: Parts, t: Parts, c: Parts, e: Parts)
    requires TextOnly(p) && TextOnly(m) && TextOnly(s) && TextOnly(k) && TextOnly(t) && TextOnly(e)
    ensures BoundValues(p + a + m + b + s + k + t + c + e) == BoundValues(a) + BoundValues(b) + BoundValues(c)
  {
    Suffix(p + a + m + b + s + k + t + c, e);
    BoundValuesConcat(p + a + m + b + s + k + t, c);
    Suffix(p + a + m + b + s + k, t);
    Suffix(p + a + m + b + s, k);
    Join5(p, a, m, b, s);
  }

  lemma Join9Rows(p: Parts, a: Parts, m1: Parts, x: Parts, m2: Parts, b: Parts, m3: Parts, y: Parts, s: Parts)
    requires TextOnly(p) && TextOnly(m1) && TextOnly(m2) && TextOnly(m3) && TextOnly(s)
    ensures BoundValues(p + a + m1 + x + m2 + b + m3 + y + s) ==
            BoundValues(a) + BoundValues(x) + BoundValues(b) + BoundValues(y)
  {
    Suffix(p + a + m1 + x + m2 + b + m3 + y, s);
    BoundValuesConcat(p + a + m1 + x + m2 + b + m3, y);
    Suffix(p + a + m1 + x + m2 + b, m3);
    BoundValuesConcat(p + a + m1 + x + m2, b);
    Suffix(p + a + m1 + x, m2);
    Join4(p, a, m1, x);
  }

  lemma LikeBinds(a: Parts, k: Parts, t1: string, v1: Value, t2: string, v2: Value)
    requires TextOnly(k)
    ensures BoundValues(a + k + [Text(t1), ValuePart(v1), Text(t2), ValuePart(v2)]) == BoundValues(a) + [v1, v2]
  {
    var tail := [Text(t1), ValuePart(v1), Text(t2), ValuePart(v2)];
    assert tail == [Text(t1)] + [ValuePart(v1)] + [Text(t2)] + [ValuePart(v2)];
    BoundValuesConcat([Text(t1)] + [ValuePart(v1)] + [Text(t2)], [ValuePart(v2)]);
    BoundValuesConcat([Text(t1)] + [ValuePart(v1)], [Text(t2)]);
    BoundValuesConcat([Text(t1)], [ValuePart(v1)]);
    TextOnlyValues([Text(t1)]);
    TextOnlyValues([Text(t2)]);
    OneValue(v1);
    OneValue(v2);
    BoundValuesConcat(a + k, tail);
    Suffix(a, k);
  }

  lemma OneValue(v: Value)
    ensures BoundValues([ValuePart(v)]) == [v]
  {
    assert [ValuePart(v)][..0] == [];
  }

  // ---------------------------------------------------------------- columns

  lemma {:induction false} OperandValuesAgree(env: Env, o: Operand)
    ensures OperandParts(env, o).Ok? ==> BoundValues(OperandParts(env, o).value) == OperandValues(env, o)
    decreases o, 2
  {
    match o
    case Column(e) => ColumnValuesAgree(env, e);
    case Argument(_, _) => OneValue(ArgumentValue(o));
  }

  lemma {:induction false} ColumnValuesAgree(env: Env, e: ColumnExpression)
    ensures ColumnParts(env, e).Ok? ==> BoundValues(ColumnParts(env, e).value) == ColumnValues(env, e)
    decreases e, 2
  {
    match e
    case PropertyExpression(_, _, _) =>
      if PropertyParts(env, e).Ok? {
        TextOnlyValues(PropertyParts(env, e).value);
      }
    case AliasExpression(inner, _) =>
      ColumnValuesAgree(env, inner);
      if ColumnParts(env, inner).Ok? {
        Suffix(ColumnParts(env, inner).value, [Text(" as " + env.dialect.enquote(e.alias))]);
      }
    case ArithmeticExpression(a) => ArithmeticValuesAgree(env, a);
    case CaseExpression(_, _) => CaseValuesAgree(env, e);
    case LiteralExpression(v) => TextOnlyValues([Text(env.dialect.formatValue(v))]);
    case RandomFunction => TextOnlyValues([Text(env.dialect.randomFunction + "()")]);
    case ScalarExpression(s) => ScalarValuesAgree(env, s);
    case StringFunction(f) => StringFunctionValuesAgree(env, f);
  }

  lemma {:induction false} ArithmeticValuesAgree(env: Env, a: Arithmetic)
    ensures ArithmeticParts(env, a).Ok? ==>
      BoundValues(ArithmeticParts(env, a).value) == OperandValues(env, a.left) + OperandValues(env, a.right)
    decreases a, 1
  {
    OperandValuesAgree(env, a.left);
    OperandValuesAgree(env, a.right);
    var l := OperandParts(env, a.left);
    var r := OperandParts(env, a.right);
    if l.Ok? && r.Ok? {
      if a.Mod? && !env.dialect.supportsModuloOperator {
        Join5([Text("("), Text("mod(")], l.value, [Text(", ")], r.value, [Text(")"), Text(")")]);
      } else {
        Join5([Text("(")], l.value, [Text(ArithmeticSymbol(a))], r.value, [Text(")")]);
      }
    }
  }

  lemma {:induction false} CaseValuesAgree(env: Env, e: ColumnExpression)
    requires e.CaseExpression?
    ensures CaseParts(env, e).Ok? ==> BoundValues(CaseParts(env, e).value) == ColumnValues(env, e)
    decreases e, 1
  {
    WhensValuesAgree(env, e.whenList, 0);
    var whens := WhensFrom(env, e.whenList, 0);
    var otherwise: Rendered :=
      match e.otherwise
      case None => Ok([])
      case Some(o) => Prepend([Text(" else ")], ColumnParts(env, o));
    if e.otherwise.Some? {
      ColumnValuesAgree(env, e.otherwise.value);
      if ColumnParts(env, e.otherwise.value).Ok? {
        Prefix([Text(" else ")], ColumnParts(env, e.otherwise.value).value);
      }
    }
    if whens.Ok? && otherwise.Ok? {
      Join4Adjacent([Text("case")], whens.value, otherwise.value, [Text(" end")]);
    }
  }

  lemma {:induction false} WhensValuesAgree(env: Env, whens: seq<When>, i: nat)
    requires i <= |whens|
    ensures WhensFrom(env, whens, i).Ok? ==> BoundValues(WhensFrom(env, whens, i).value) == WhensValues(env, whens, i)
    decreases whens, 0, |whens| - i
  {
    if i < |whens| {
      WhenValuesAgree(env, whens[i]);
      WhensValuesAgree(env, whens, i + 1);
      var w := WhenParts(env, whens[i]);
      var rest := WhensFrom(env, whens, i + 1);
      if w.Ok? && rest.Ok? {
        BoundValuesConcat(w.value, rest.value);
      }
    }
  }

  lemma {:induction false} WhenValuesAgree(env: Env, w: When)
    ensures WhenParts(env, w).Ok? ==> BoundValues(WhenParts(env, w).value) == WhenValues(env, w)
    decreases w, 1
  {
    if |w.criteria| > 0 {
      CriteriaValuesAgree(env, w.criteria, 0);
      OperandValuesAgree(env, w.thenOperand);
      var cs := CriteriaFrom(env, w.criteria, 0);
      var t := OperandParts(env, w.thenOperand);
      if cs.Ok? && t.Ok? {
        Join4([Text(" when ")], cs.value, [Text(" then ")], t.value);
      }
    }
  }

  lemma {:induction false} ScalarValuesAgree(env: Env, s: Scalar)
    ensures ScalarParts(env, s).Ok? ==> BoundValues(ScalarParts(env, s).value) == ScalarValues(env, s)
    decreases s, 1
  {
    match s
    case AggregateFunction(a) =>
      if a.CountAsterisk? {
        TextOnlyValues([Text("count(*)")]);
      } else {
        ColumnValuesAgree(env, a.expression);
        if ColumnParts(env, a.expression).Ok? {
          Around([Text(AggregateOpening(a))], ColumnParts(env, a.expression).value, [Text(")")]);
        }
      }
    case ScalarQueryExpression(q) =>
      Around([Text("(")], SubqueryStatement(env, q).parts, [Text(")")]);
  }

  lemma {:induction false} StringFunctionValuesAgree(env: Env, f: StringFunctionCall)
    ensures StringFunctionParts(env, f).Ok? ==>
      BoundValues(StringFunctionParts(env, f).value) == StringFunctionValues(env, f)
    decreases f, 3
  {
    StringCallValuesAgree(env, f);
    if StringCallParts(env, f).Ok? {
      Nested([Text("(")], StringCallParts(env, f).value, [Text(")")]);
    }
  }

  lemma {:induction false} StringCallValuesAgree(env: Env, f: StringFunctionCall)
    ensures StringCallParts(env, f).Ok? ==>
      BoundValues(StringCallParts(env, f).value) == StringFunctionValues(env, f)
    decreases f, 2
  {
    match f
    case Concat(l, r) =>
      OperandValuesAgree(env, l);
      OperandValuesAgree(env, r);
      if OperandParts(env, l).Ok? && OperandParts(env, r).Ok? {
        Join5([Text("concat(")], OperandParts(env, l).value, [Text(", ")], OperandParts(env, r).value, [Text(")")]);
      }
    case Lower(o) => UnaryCallValuesAgree(env, "lower(", o);
    case Ltrim(o) => UnaryCallValuesAgree(env, "ltrim(", o);
    case Rtrim(o) => UnaryCallValuesAgree(env, "rtrim(", o);
    case Substring(_, _, _) => SubstringValuesAgree(env, f);
    case Trim(o) => UnaryCallValuesAgree(env, "trim(", o);
    case Upper(o) => UnaryCallValuesAgree(env, "upper(", o);
  }

  lemma {:induction false} UnaryCallValuesAgree(env: Env, name: string, o: Operand)
    ensures OperandParts(env, o).Ok? ==>
      BoundValues([Text(name)] + (OperandParts(env, o).value + [Text(")")])) == OperandValues(env, o)
    decreases o, 3
  {
    OperandValuesAgree(env, o);
    if OperandParts(env, o).Ok? {
      Nested([Text(name)], OperandParts(env, o).value, [Text(")")]);
    }
  }

  lemma {:induction false} SubstringValuesAgree(env: Env, f: StringFunctionCall)
    requires f.Substring?
    ensures StringCallParts(env, f).Ok? ==>
      BoundValues(StringCallParts(env, f).value) == StringFunctionValues(env, f)
    decreases f, 1
  {
    OperandValuesAgree(env, f.target);
    OperandValuesAgree(env, f.startIndex);
    SubstringLengthValuesAgree(env, f);
    var a := OperandParts(env, f.target);
    var b := OperandParts(env, f.startIndex);
    var length := SubstringLengthParts(env, f);
    if a.Ok? && b.Ok? && length.Ok? {
      Join6([Text(env.dialect.substringFunction + "(")], a.value, [Text(", ")], b.value, length.value, [Text(")")]);
    }
  }

  lemma {:induction false} SubstringLengthValuesAgree(env: Env, f: StringFunctionCall)
    requires f.Substring?
    ensures SubstringLengthParts(env, f).Ok? ==>
      BoundValues(SubstringLengthParts(env, f).value) ==
      (if f.length.Some? then OperandValues(env, f.length.value) else [])
    decreases f, 0
  {
    match f.length
    case Some(o) =>
      OperandValuesAgree(env, o);
      if OperandParts(env, o).Ok? {
        Prefix([Text(", ")], OperandParts(env, o).value);
      }
    case None =>
      match env.dialect.defaultLengthForSubstringFunction
      case None =>
      case Some(n) => TextOnlyValues([Text(", " + IntToString(n))]);
  }

  // ---------------------------------------------------------------- criteria

  lemma {:induction false} CriterionValuesAgree(env: Env, c: Criterion)
    ensures CriterionParts(env, c).Ok? ==> BoundValues(CriterionParts(env, c).value) == CriterionValues(env, c)
    decreases c, 4
  {
    if IsComparison(c) {
      ComparisonValuesAgree(env, c);
    } else if IsOperandPredicate(c) {
      OperandPredicateValuesAgree(env, c);
    } else if c.InList? || c.NotInList? || c.InList2? || c.NotInList2? {
      ListPredicateValuesAgree(env, c);
    } else if c.And? || c.Or? || c.Not? {
      GroupValuesAgree(env, c);
    } else {
      SubqueryPredicateValuesAgree(env, c);
    }
  }

  lemma {:induction false} ComparisonValuesAgree(env: Env, c: Criterion)
    requires IsComparison(c)
    ensures CriterionParts(env, c).Ok? ==> BoundValues(CriterionParts(env, c).value) == CriterionValues(env, c)
    decreases c, 3
  {
    match c {
      case Eq(_, _) => BinaryValuesAgree(env, c, "=");
      case NotEq(_, _) => BinaryValuesAgree(env, c, "<>");
      case Less(_, _) => BinaryValuesAgree(env, c, "<");
      case LessEq(_, _) => BinaryValuesAgree(env, c, "<=");
      case Greater(_, _) => BinaryValuesAgree(env, c, ">");
      case GreaterEq(_, _) => BinaryValuesAgree(env, c, ">=");
    }
  }

  lemma {:induction false} OperandPredicateValuesAgree(env: Env, c: Criterion)
    requires IsOperandPredicate(c) && !IsComparison(c)
    ensures CriterionParts(env, c).Ok? ==> BoundValues(CriterionParts(env, c).value) == CriterionValues(env, c)
    decreases c, 3
  {
    match c {
      case IsNull(_) => IsNullValuesAgree(env, c, false);
      case IsNotNull(_) => IsNullValuesAgree(env, c, true);
      case Like(_, _) => LikeValuesAgree(env, c, false);
      case NotLike(_, _) => LikeValuesAgree(env, c, true);
      case Between(_, _) => BetweenValuesAgree(env, c, false);
      case NotBetween(_, _) => BetweenValuesAgree(env, c, true);
    }
  }

  lemma {:induction false} ListPredicateValuesAgree(env: Env, c: Criterion)
    requires c.InList? || c.NotInList? || c.InList2? || c.NotInList2?
    ensures CriterionParts(env, c).Ok? ==> BoundValues(CriterionParts(env, c).value) == CriterionValues(env, c)
    decreases c, 3
  {
    match c {
      case InList(_, _) => InListValuesAgree(env, c, false);
      case NotInList(_, _) => InListValuesAgree(env, c, true);
      case InList2(_, _) => InList2ValuesAgree(env, c, false);
      case NotInList2(_, _) => InList2ValuesAgree(env, c, true);
    }
  }

  lemma {:induction false} SubqueryPredicateValuesAgree(env: Env, c: Criterion)
    requires c.InSubQuery? || c.NotInSubQuery? || c.InSubQuery2? || c.NotInSubQuery2? || c.Exists? || c.NotExists?
    ensures CriterionParts(env, c).Ok? ==> BoundValues(CriterionParts(env, c).value) == CriterionValues(env, c)
    decreases c, 3
  {
    match c {
      case InSubQuery(_, _) => InSubQueryValuesAgree(env, c, false);
      case NotInSubQuery(_, _) => InSubQueryValuesAgree(env, c, true);
      case InSubQuery2(_, _) => InSubQuery2ValuesAgree(env, c, false);
      case NotInSubQuery2(_, _) => InSubQuery2ValuesAgree(env, c, true);
      case Exists(_) => ExistsValuesAgree(env, c, false);
      case NotExists(_) => ExistsValuesAgree(env, c, true);
    }
  }

  lemma {:induction false} BinaryValuesAgree(env: Env, c: Criterion, operator: string)
    requires IsComparison(c)
    ensures BinaryParts(env, c, c.left, c.right, operator).Ok? ==>
      BoundValues(BinaryParts(env, c, c.left, c.right, operator).value) == OperandValues(env, c.left) + OperandValues(env, c.right)
    decreases c, 2
  {
    OperandValuesAgree(env, c.left);
    OperandValuesAgree(env, c.right);
    var l := OperandParts(env, c.left);
    var r := OperandParts(env, c.right);
    if l.Ok? && r.Ok? {
      Join3(l.value, [Text(" " + operator + " ")], r.value);
    }
  }

  lemma {:induction false} IsNullValuesAgree(env: Env, c: Criterion, not: bool)
    requires c.IsNull? || c.IsNotNull?
    ensures IsNullParts(env, c, c.left, not).Ok? ==>
      BoundValues(IsNullParts(env, c, c.left, not).value) == OperandValues(env, c.left)
    decreases c, 2
  {
    OperandValuesAgree(env, c.left);
    var l := OperandParts(env, c.left);
    if l.Ok? {
      Suffix(l.value, [Text(if not then " is not null" else " is null")]);
    }
  }

  lemma {:induction false} LikeValuesAgree(env: Env, c: Criterion, not: bool)
    requires c.Like? || c.NotLike?
    ensures LikeParts(env, c, c.left, c.pattern, not).Ok? ==>
      BoundValues(LikeParts(env, c, c.left, c.pattern, not).value) == OperandValues(env, c.left) + LikeValues(env, c.left, c.pattern)
    decreases c, 2
  {
    OperandValuesAgree(env, c.left);
    var l := OperandParts(env, c.left);
    if l.Ok? {
      var escapeSequence := FinalEscapeSequence(env);
      LikeBinds(l.value, Keyword(not, " not"),
                " like ", Value(Str(EscapeText(c.pattern, env.dialect, escapeSequence)), OperandMasking(c.left)),
                " escape ", Value(Str(escapeSequence), false));
    }
  }

  lemma {:induction false} BetweenValuesAgree(env: Env, c: Criterion, not: bool)
    requires c.Between? || c.NotBetween?
    ensures BetweenParts(env, c, c.left, c.range, not).Ok? ==>
      BoundValues(BetweenParts(env, c, c.left, c.range, not).value) == OperandValues(env, c.left) + PairValues(env, c.range)
    decreases c, 2
  {
    OperandValuesAgree(env, c.left);
    OperandValuesAgree(env, c.range.first);
    OperandValuesAgree(env, c.range.second);
    var l := OperandParts(env, c.left);
    var start := OperandParts(env, c.range.first);
    var end := OperandParts(env, c.range.second);
    if l.Ok? && start.Ok? && end.Ok? {
      Join6Led(l.value, Keyword(not, " not"), [Text(" between ")], start.value, [Text(" and ")], end.value);
    }
  }

  lemma {:induction false} InListValuesAgree(env: Env, c: Criterion, not: bool)
    requires c.InList? || c.NotInList?
    ensures InListParts(env, c, c.left, c.list, not).Ok? ==>
      BoundValues(InListParts(env, c, c.left, c.list, not).value) == OperandValues(env, c.left) + OperandListValues(env, c.list, 0)
    decreases c, 2
  {
    OperandValuesAgree(env, c.left);
    var l := OperandParts(env, c.left);
    var items := if |c.list| == 0 then Ok([Text("null")]) else OperandsFrom(env, c.list, 0);
    if |c.list| == 0 {
      TextOnlyValues([Text("null")]);
    } else {
      OperandListValuesAgree(env, c.list, 0);
    }
    if l.Ok? && items.Ok? {
      Join5Led(l.value, Keyword(not, " not"), [Text(" in (")], items.value, [Text(")")]);
    }
  }

  lemma {:induction false} OperandListValuesAgree(env: Env, list: seq<Operand>, i: nat)
    requires i <= |list|
    ensures OperandsFrom(env, list, i).Ok? ==>
      BoundValues(OperandsFrom(env, list, i).value) == OperandListValues(env, list, i)
    decreases list, 0, |list| - i
  {
    if i < |list| {
      OperandValuesAgree(env, list[i]);
      OperandListValuesAgree(env, list, i + 1);
      var p := OperandParts(env, list[i]);
      var rest := OperandsFrom(env, list, i + 1);
      if p.Ok? && rest.Ok? {
        Prefixed(Keyword(i > 0, ", "), p.value, rest.value);
      }
    }
  }

  lemma {:induction false} InList2ValuesAgree(env: Env, c: Criterion, not: bool)
    requires c.InList2? || c.NotInList2?
    ensures InList2Parts(env, c, c.leftPair, c.rows, not).Ok? ==>
      BoundValues(InList2Parts(env, c, c.leftPair, c.rows, not).value) == InList2Values(env, c)
    decreases c, 2
  {
    OperandValuesAgree(env, c.leftPair.first);
    OperandValuesAgree(env, c.leftPair.second);
    if env.dialect.supportsMultipleColumnsInInPredicate {
      TuplesListValuesAgree(env, c, not);
    } else if |c.rows| == 0 {
      NullPairValuesAgree(env, c, not);
    } else {
      OrRowListValuesAgree(env, c, not);
    }
  }

  lemma {:induction false} TuplesListValuesAgree(env: Env, c: Criterion, not: bool)
    requires c.InList2? || c.NotInList2?
    requires env.dialect.supportsMultipleColumnsInInPredicate
    requires OperandParts(env, c.leftPair.first).Ok? ==>
      BoundValues(OperandParts(env, c.leftPair.first).value) == OperandValues(env, c.leftPair.first)
    requires OperandParts(env, c.leftPair.second).Ok? ==>
      BoundValues(OperandParts(env, c.leftPair.second).value) == OperandValues(env, c.leftPair.second)
    ensures InList2Parts(env, c, c.leftPair, c.rows, not).Ok? ==>
      BoundValues(InList2Parts(env, c, c.leftPair, c.rows, not).value) == InList2Values(env, c)
    decreases c, 1
  {
    var a := OperandParts(env, c.leftPair.first);
    var b := OperandParts(env, c.leftPair.second);
    var items := if |c.rows| == 0 then Ok([Text("(null, null)")]) else TuplesFrom(env, c.rows, 0);
    if |c.rows| == 0 {
      TextOnlyValues([Text("(null, null)")]);
    } else {
      TuplesValuesAgree(env, c.rows, 0);
    }
    if a.Ok? && b.Ok? && items.Ok? {
      Join9([Text("(")], a.value, [Text(", ")], b.value, [Text(")")], Keyword(not, " not"), [Text(" in (")],
            items.value, [Text(")")]);
    }
  }

  lemma {:induction false} NullPairValuesAgree(env: Env, c: Criterion, not: bool)
    requires c.InList2? || c.NotInList2?
    requires !env.dialect.supportsMultipleColumnsInInPredicate && |c.rows| == 0
    requires OperandParts(env, c.leftPair.first).Ok? ==>
      BoundValues(OperandParts(env, c.leftPair.first).value) == OperandValues(env, c.leftPair.first)
    requires OperandParts(env, c.leftPair.second).Ok? ==>
      BoundValues(OperandParts(env, c.leftPair.second).value) == OperandValues(env, c.leftPair.second)
    ensures InList2Parts(env, c, c.leftPair, c.rows, not).Ok? ==>
      BoundValues(InList2Parts(env, c, c.leftPair, c.rows, not).value) == InList2Values(env, c)
    decreases c, 1
  {
    var a := OperandParts(env, c.leftPair.first);
    var b := OperandParts(env, c.leftPair.second);
    if a.Ok? && b.Ok? {
      var body := a.value + [Text(" = null"), Text(" and ")] + b.value + [Text(" = null")];
      Join4Closed(a.value, [Text(" = null"), Text(" and ")], b.value, [Text(" = null")]);
      Around4(Keyword(not, "not "), [Text("(")], body, [Text(")")]);
    }
  }

  lemma {:induction false} OrRowListValuesAgree(env: Env, c: Criterion, not: bool)
    requires c.InList2? || c.NotInList2?
    requires !env.dialect.supportsMultipleColumnsInInPredicate && |c.rows| > 0
    requires OperandParts(env, c.leftPair.first).Ok? ==>
      BoundValues(OperandParts(env, c.leftPair.first).value) == OperandValues(env, c.leftPair.first)
    requires OperandParts(env, c.leftPair.second).Ok? ==>
      BoundValues(OperandParts(env, c.leftPair.second).value) == OperandValues(env, c.leftPair.second)
    ensures InList2Parts(env, c, c.leftPair, c.rows, not).Ok? ==>
      BoundValues(InList2Parts(env, c, c.leftPair, c.rows, not).value) == InList2Values(env, c)
    decreases c, 1
  {
    var first := OperandParts(env, c.leftPair.first);
    var second := OperandParts(env, c.leftPair.second);
    var body := OrRowsFrom(env, first, second, c.rows, 0);
    if body.Ok? {
      assert OrRowParts(env, first, second, c.rows[0]).Ok?;
      assert first.Ok? && second.Ok?;
      OrRowsValuesAgree(env, first, second, c.rows, 0);
      Around4(Keyword(not, "not "), [Text("(")], body.value, [Text(")")]);
    }
  }

  lemma {:induction false} TupleValuesAgree(env: Env, row: OperandPair)
    ensures TupleParts(env, row).Ok? ==> BoundValues(TupleParts(env, row).value) == PairValues(env, row)
    decreases row, 1
  {
    OperandValuesAgree(env, row.first);
    OperandValuesAgree(env, row.second);
    var a := OperandParts(env, row.first);
    var b := OperandParts(env, row.second);
    if a.Ok? && b.Ok? {
      Join5([Text("(")], a.value, [Text(", ")], b.value, [Text(")")]);
    }
  }

  lemma {:induction false} TuplesValuesAgree(env: Env, rows: seq<OperandPair>, i: nat)
    requires i <= |rows|
    ensures TuplesFrom(env, rows, i).Ok? ==> BoundValues(TuplesFrom(env, rows, i).value) == RowsValues(env, rows, i)
    decreases rows, 0, |rows| - i
  {
    if i < |rows| {
      TupleValuesAgree(env, rows[i]);
      TuplesValuesAgree(env, rows, i + 1);
      var p := TupleParts(env, rows[i]);
      var rest := TuplesFrom(env, rows, i + 1);
      if p.Ok? && rest.Ok? {
        Prefixed(Keyword(i > 0, ", "), p.value, rest.value);
      }
    }
  }

  lemma {:induction false} OrRowValuesAgree(env: Env, first: Rendered, second: Rendered, row: OperandPair)
    requires first.Ok? && second.Ok?
    ensures OrRowParts(env, first, second, row).Ok? ==>
      BoundValues(OrRowParts(env, first, second, row).value) ==
      BoundValues(first.value) + OperandValues(env, row.first) + BoundValues(second.value) + OperandValues(env, row.second)
    decreases row, 1
  {
    OperandValuesAgree(env, row.first);
    OperandValuesAgree(env, row.second);
    var x := OperandParts(env, row.first);
    var y := OperandParts(env, row.second);
    if x.Ok? && y.Ok? {
      Join9Rows([Text("(")], first.value, [Text(" = ")], x.value, [Text(" and ")], second.value, [Text(" = ")],
                y.value, [Text(")")]);
    }
  }

  lemma {:induction false} OrRowsValuesAgree(env: Env, first: Rendered, second: Rendered, rows: seq<OperandPair>, i: nat)
    requires first.Ok? && second.Ok?
    requires i <= |rows|
    ensures OrRowsFrom(env, first, second, rows, i).Ok? ==>
      BoundValues(OrRowsFrom(env, first, second, rows, i).value) ==
      OrRowsValues(env, BoundValues(first.value), BoundValues(second.value), rows, i)
    decreases rows, 0, |rows| - i
  {
    if i < |rows| {
      OrRowValuesAgree(env, first, second, rows[i]);
      OrRowsValuesAgree(env, first, second, rows, i + 1);
      var p := OrRowParts(env, first, second, rows[i]);
      var rest := OrRowsFrom(env, first, second, rows, i + 1);
      if p.Ok? && rest.Ok? {
        Prefixed(Keyword(i > 0, " or "), p.value, rest.value);
      }
    }
  }

  lemma {:induction false} InSubQueryValuesAgree(env: Env, c: Criterion, not: bool)
    requires c.InSubQuery? || c.NotInSubQuery?
    ensures InSubQueryParts(env, c, c.left, c.subquery, not).Ok? ==>
      BoundValues(InSubQueryParts(env, c, c.left, c.subquery, not).value) == OperandValues(env, c.left) + SubqueryValues(env, c.subquery)
    decreases c, 2
  {
    OperandValuesAgree(env, c.left);
    var l := OperandParts(env, c.left);
    if l.Ok? {
      Join5Led(l.value, Keyword(not, " not"), [Text(" in (")], SubqueryStatement(env, c.subquery).parts, [Text(")")]);
    }
  }

  lemma {:induction false} InSubQuery2ValuesAgree(env: Env, c: Criterion, not: bool)
    requires c.InSubQuery2? || c.NotInSubQuery2?
    ensures InSubQuery2Parts(env, c, c.leftPair, c.subquery, not).Ok? ==>
      BoundValues(InSubQuery2Parts(env, c, c.leftPair, c.subquery, not).value) == PairValues(env, c.leftPair) + SubqueryValues(env, c.subquery)
    decreases c, 2
  {
    OperandValuesAgree(env, c.leftPair.first);
    OperandValuesAgree(env, c.leftPair.second);
    var a := OperandParts(env, c.leftPair.first);
    var b := OperandParts(env, c.leftPair.second);
    if a.Ok? && b.Ok? {
      Join9([Text("(")], a.value, [Text(", ")], b.value, [Text(")")], Keyword(not, " not"), [Text(" in (")],
            SubqueryStatement(env, c.subquery).parts, [Text(")")]);
    }
  }

  lemma ExistsValuesAgree(env: Env, c: Criterion, not: bool)
    requires c.Exists? || c.NotExists?
    ensures BoundValues(ExistsParts(env, c.subquery, not).value) == SubqueryValues(env, c.subquery)
    decreases c, 2
  {
    Around4(Keyword(not, "not "), [Text("exists (")], SubqueryStatement(env, c.subquery).parts, [Text(")")]);
  }

  /** AND, OR and NOT groups bind the values of their criteria; an empty group binds none. */
  lemma {:induction false} GroupValuesAgree(env: Env, c: Criterion)
    requires c.And? || c.Or? || c.Not?
    ensures CriterionParts(env, c).Ok? ==> BoundValues(CriterionParts(env, c).value) == CriterionValues(env, c)
    decreases c, 3
  {
    if |c.criteria| > 0 {
      CriteriaValuesAgree(env, c.criteria, 0);
      var cs := CriteriaFrom(env, c.criteria, 0);
      if cs.Ok? {
        if c.Not? {
          Nested([Text("not "), Text("(")], cs.value, [Text(")")]);
        } else {
          Nested([Text("(")], cs.value, [Text(")")]);
        }
      }
    }
  }

  lemma {:induction false} CriteriaValuesAgree(env: Env, criteria: seq<Criterion>, i: nat)
    requires i <= |criteria|
    ensures CriteriaFrom(env, criteria, i).Ok? ==>
      BoundValues(CriteriaFrom(env, criteria, i).value) == CriteriaValues(env, criteria, i)
    decreases criteria, 0, |criteria| - i
  {
    if i < |criteria| {
      CriterionValuesAgree(env, criteria[i]);
      CriteriaValuesAgree(env, criteria, i + 1);
      var p := CriterionParts(env, criteria[i]);
      var rest := CriteriaFrom(env, criteria, i + 1);
      if p.Ok? && rest.Ok? {
        Prefixed(Keyword(i > 0, Separator(criteria[i])), p.value, rest.value);
      }
    }
  }
}
