/**
 * The arithmetic operators of the query DSL: `x + v`, `x - other`, `x % v`, ... Each
 * builds an arithmetic node owned by the receiver column `x`, whose left operand is `x`
 * itself and whose right operand is either a bound argument of `x`'s type or another
 * column. The lemmas follow such a node through the builder: the SQL it renders and the
 * values it binds.
 */
module ArithmeticOperators {
  import opened Wrappers
  import opened Statements
  import opened Expressions
  import opened Render
  import opened LeafValues
  import opened Shapes

  /** The five operator functions: plus, minus, times, div and rem. */
  datatype Operator = PlusOperator | MinusOperator | TimesOperator | DivOperator | RemOperator

  /** The SQL operator each one is written with when the dialect has it. */
  function OperatorSymbol(op: Operator): string {
    match op
    case PlusOperator => " + "
    case MinusOperator => " - "
    case TimesOperator => " * "
    case DivOperator => " / "
    case RemOperator => " % "
  }

  /** The arithmetic node of `op`, owned by `owner`. */
  function Node(op: Operator, owner: ColumnExpression, left: Operand, right: Operand): Arithmetic {
    match op
    case PlusOperator => Plus(owner, left, right)
    case MinusOperator => Minus(owner, left, right)
    case TimesOperator => Times(owner, left, right)
    case DivOperator => Div(owner, left, right)
    case RemOperator => Mod(owner, left, right)
  }

  /** `x op value`: the value is bound as an argument typed and masked like `x`. */
  function ApplyValue(op: Operator, x: ColumnExpression, value: Datum): (r: ColumnExpression)
    ensures r.ArithmeticExpression?
    ensures r.arithmetic.expression == x
    ensures r.arithmetic.left == Column(x) && r.arithmetic.right == Argument(x, value)
    ensures ArithmeticSymbol(r.arithmetic) == OperatorSymbol(op)
    ensures r.arithmetic.Mod? <==> op == RemOperator
    ensures Masking(r) == Masking(x)
  {
    ArithmeticExpression(Node(op, x, Column(x), Argument(x, value)))
  }

  /** `x op other`: both operands are columns, so the node binds no argument of its own. */
  function ApplyColumn(op: Operator, x: ColumnExpression, other: ColumnExpression): (r: ColumnExpression)
    ensures r.ArithmeticExpression?
    ensures r.arithmetic.expression == x
    ensures r.arithmetic.left == Column(x) && r.arithmetic.right == Column(other)
    ensures ArithmeticSymbol(r.arithmetic) == OperatorSymbol(op)
    ensures r.arithmetic.Mod? <==> op == RemOperator
    ensures Masking(r) == Masking(x)
  {
    ArithmeticExpression(Node(op, x, Column(x), Column(other)))
  }

  /**
   * `x op v` renders `(x op ?)`, or `(mod(x, ?))` for rem on a dialect without a modulo
   * operator, fails exactly when `x` fails, and binds the values of `x` followed by
   * exactly one value: `v`, masked like `x`.
   */
  lemma ValueOperatorRendering(env: Env, op: Operator, x: ColumnExpression, v: Datum)
    ensures ColumnParts(env, ApplyValue(op, x, v)).Ok? <==> ColumnParts(env, x).Ok?
    ensures ColumnParts(env, ApplyValue(op, x, v)).Ok? ==>
      SqlText(ColumnParts(env, ApplyValue(op, x, v)).value) ==
      if op == RemOperator && !env.dialect.supportsModuloOperator then
        "(" + "mod(" + SqlText(ColumnParts(env, x).value) + ", " + "?" + ")" + ")"
      else
        "(" + SqlText(ColumnParts(env, x).value) + OperatorSymbol(op) + "?" + ")"
    ensures ColumnParts(env, ApplyValue(op, x, v)).Ok? ==>
      BoundValues(ColumnParts(env, ApplyValue(op, x, v)).value) == ColumnValues(env, x) + [Value(v, Masking(x))]
  {
    var a := ApplyValue(op, x, v).arithmetic;
    ArithmeticShape(env, a);
    ArithmeticValuesAgree(env, a);
    SqlTextOfValue(Value(v, Masking(x)));
  }

  /**
   * `x op other` renders `(x op other)`, or `(mod(x, other))` for rem on a dialect
   * without a modulo operator, and binds the values of `x` followed by those of `other`.
   */
  lemma ColumnOperatorRendering(env: Env, op: Operator, x: ColumnExpression, other: ColumnExpression)
    ensures ColumnParts(env, ApplyColumn(op, x, other)).Ok? <==> ColumnParts(env, x).Ok? && ColumnParts(env, other).Ok?
    ensures ColumnParts(env, ApplyColumn(op, x, other)).Ok? ==>
      SqlText(ColumnParts(env, ApplyColumn(op, x, other)).value) ==
      if op == RemOperator && !env.dialect.supportsModuloOperator then
        "(" + "mod(" + SqlText(ColumnParts(env, x).value) + ", " + SqlText(ColumnParts(env, other).value) + ")" + ")"
      else
        "(" + SqlText(ColumnParts(env, x).value) + OperatorSymbol(op) + SqlText(ColumnParts(env, other).value) + ")"
    ensures ColumnParts(env, ApplyColumn(op, x, other)).Ok? ==>
      BoundValues(ColumnParts(env, ApplyColumn(op, x, other)).value) == ColumnValues(env, x) + ColumnValues(env, other)
  {
    var a := ApplyColumn(op, x, other).arithmetic;
    ArithmeticShape(env, a);
    ArithmeticValuesAgree(env, a);
  }

  /** The rem operator with a value, on a dialect without `%`: `(mod(x, ?))` with one more bound value, `v`. */
  lemma RemValueWithoutModulo(env: Env, x: ColumnExpression, v: Datum)
    requires !env.dialect.supportsModuloOperator
    requires ColumnParts(env, x).Ok?
    ensures ColumnParts(env, ApplyValue(RemOperator, x, v)).Ok?
    ensures SqlText(ColumnParts(env, ApplyValue(RemOperator, x, v)).value) ==
            "(" + "mod(" + SqlText(ColumnParts(env, x).value) + ", " + "?" + ")" + ")"
    ensures |BoundValues(ColumnParts(env, ApplyValue(RemOperator, x, v)).value)| == |ColumnValues(env, x)| + 1
    ensures BoundValues(ColumnParts(env, ApplyValue(RemOperator, x, v)).value)[|ColumnValues(env, x)|] == Value(v, Masking(x))
  {
    ValueOperatorRendering(env, RemOperator, x, v);
  }
}
