/**
 * What the builder binds, end to end: after a visit the buffer's bound values are the
 * values it held before, followed by the values of the visited tree in left-to-right
 * order, as the reference walk of LeafValues lists them.
 */
module BoundOrder {
  import opened Wrappers
  import opened Statements
  import opened Expressions
  import opened Render
  import opened Emitted
  import opened Agreement
  import opened LeafValues

  /** Visiting a column appends exactly the column's values to the bound values. */
  lemma ColumnBindsInOrder(env: Env, e: ColumnExpression, b: Parts)
    ensures ColumnInto(env, e, b).Ok? ==>
      BoundValues(ColumnInto(env, e, b).value) == BoundValues(b) + ColumnValues(env, e)
  {
    ColumnAgrees(env, e, b);
    ColumnValuesAgree(env, e);
    var p := ColumnParts(env, e);
    if p.Ok? {
      BoundValuesConcat(b, p.value);
    }
  }

  /** Visiting an operand appends its values: one for an argument, the column's for a column. */
  lemma OperandBindsInOrder(env: Env, o: Operand, b: Parts)
    ensures OperandInto(env, o, b).Ok? ==>
      BoundValues(OperandInto(env, o, b).value) == BoundValues(b) + OperandValues(env, o)
  {
    OperandAgrees(env, o, b);
    OperandValuesAgree(env, o);
    var p := OperandParts(env, o);
    if p.Ok? {
      BoundValuesConcat(b, p.value);
    }
  }

  /**
   * Visiting a non-empty conjunction, the cut-back of its last " and " included, appends
   * the values of its criteria in order and nothing else.
   */
  lemma ConjunctionBindsInOrder(env: Env, criteria: seq<Criterion>, b: Parts)
    requires 0 < |criteria|
    ensures ConjunctionInto(env, criteria, b).Ok? ==>
      BoundValues(ConjunctionInto(env, criteria, b).value) == BoundValues(b) + CriteriaValues(env, criteria, 0)
  {
    ConjunctionAgrees(env, criteria, b);
    CriteriaValuesAgree(env, criteria, 0);
    var p := CriteriaFrom(env, criteria, 0);
    if p.Ok? {
      BoundValuesConcat(b, p.value);
    }
  }
}
