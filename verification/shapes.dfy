/**
 * The SQL the renderings spell, read as text with each bound value shown as `?`, and the
 * fixed shapes the builder gives to empty IN lists, two-column IN lists, the modulo
 * operator, LIKE, aliases and groups of criteria.
 */
module Shapes {
  import opened Wrappers
  import opened Statements
  import opened Expressions
  import opened Render
  import opened LeafValues

  /** The text of the parts, with `?` standing for each bound value. */
  function SqlText(parts: Parts): string {
    if parts == [] then ""
    else SqlText(parts[..|parts| - 1]) + PartText(parts[|parts| - 1])
  }

  function PartText(part: StatementPart): string {
    match part
    case Text(t) => t
    case ValuePart(_) => "?"
  }

  /** `text` when `flag` holds, else nothing: the text of Keyword(flag, text). */
  function Word(flag: bool, text: string): string {
    if flag then text else ""
  }

  // ---------------------------------------------------------------- reading parts as text

  lemma {:induction false} SqlTextConcat(a: Parts, b: Parts)
    ensures SqlText(a + b) == SqlText(a) + SqlText(b)
    decreases |b|
  {
    if b == [] {
      assert a + b == a;
    } else {
      var b' := b[..|b| - 1];
      assert (a + b)[..|a + b| - 1] == a + b';
      SqlTextConcat(a, b');
    }
  }

  lemma SqlTextOfText(t: string)
    ensures SqlText([Text(t)]) == t
  {
    assert [Text(t)][..0] == [];
  }

  lemma SqlTextOfValue(v: Value)
    ensures SqlText([ValuePart(v)]) == "?"
  {
    assert [ValuePart(v)][..0] == [];
  }

  lemma SqlTextOfKeyword(flag: bool, t: string)
    ensures SqlText(Keyword(flag, t)) == Word(flag, t)
  {
    if flag {
      SqlTextOfText(t);
    }
  }

  lemma SqlText2(a: Parts, b: Parts, c: Parts)
    ensures SqlText(a + b + c) == SqlText(a) + SqlText(b) + SqlText(c)
  {
    SqlTextConcat(a + b, c);
    SqlTextConcat(a, b);
  }

  lemma SqlText3(a: Parts, b: Parts, c: Parts, d: Parts)
    ensures SqlText(a + b + c + d) == SqlText(a) + SqlText(b) + SqlText(c) + SqlText(d)
  {
    SqlTextConcat(a + b + c, d);
    SqlText2(a, b, c);
  }

  lemma SqlText4(a: Parts, b: Parts, c: Parts, d: Parts, e: Parts)
    ensures SqlText(a + b + c + d + e) == SqlText(a) + SqlText(b) + SqlText(c) + SqlText(d) + SqlText(e)
  {
    SqlTextConcat(a + b + c + d, e);
    SqlText3(a, b, c, d);
  }

  /**
   * Regrouping facts Dafny proves on its own; called with explicit arguments, they spare
   * the solver the search for them inside the larger shape proofs.
   */
  lemma Assoc(x: string, y: string, z: string)
    ensures x + (y + z) == x + y + z
  {
  }

  lemma SqlText8(a: Parts, b: Parts, c: Parts, d: Parts, e: Parts, f: Parts, g: Parts, h: Parts)
    ensures SqlText(a + b + c + d + e + f + g + h) ==
            SqlText(a) + SqlText(b) + SqlText(c) + SqlText(d) + SqlText(e) + SqlText(f) + SqlText(g) + SqlText(h)
  {
    SqlTextConcat(a + b + c + d + e + f + g, h);
    SqlTextConcat(a + b + c + d + e + f, g);
    SqlTextConcat(a + b + c + d + e, f);
    SqlText4(a, b, c, d, e);
  }

  lemma SqlText9(a: Parts, b: Parts, c: Parts, d: Parts, e: Parts, f: Parts, g: Parts, h: Parts, i: Parts)
    ensures SqlText(a + b + c + d + e + f + g + h + i) ==
            SqlText(a) + SqlText(b) + SqlText(c) + SqlText(d) + SqlText(e) + SqlText(f) + SqlText(g) + SqlText(h) + SqlText(i)
  {
    SqlTextConcat(a + b + c + d + e + f + g + h, i);
    SqlText8(a, b, c, d, e, f, g, h);
  }

  // ---------------------------------------------------------------- the text of each shape

  lemma InNullText(l: Parts, not: bool)
    ensures SqlText(l + Keyword(not, " not") + [Text(" in (")] + [Text("null")] + [Text(")")]) ==
            SqlText(l) + Word(not, " not") + " in (" + "null" + ")"
  {
    SqlText4(l, Keyword(not, " not"), [Text(" in (")], [Text("null")], [Text(")")]);
    SqlTextOfKeyword(not, " not");
    SqlTextOfText(" in (");
    SqlTextOfText("null");
    SqlTextOfText(")");
  }

  lemma PairInText(a: Parts, b: Parts, not: bool, items: Parts)
    ensures SqlText([Text("(")] + a + [Text(", ")] + b + [Text(")")] + Keyword(not, " not") + [Text(" in (")] + items + [Text(")")]) ==
            "(" + SqlText(a) + ", " + SqlText(b) + ")" + Word(not, " not") + " in (" + SqlText(items) + ")"
  {
    SqlText9([Text("(")], a, [Text(", ")], b, [Text(")")], Keyword(not, " not"), [Text(" in (")], items, [Text(")")]);
    SqlTextOfKeyword(not, " not");
    SqlTextOfText("(");
    SqlTextOfText(", ");
    SqlTextOfText(")");
    SqlTextOfText(" in (");
  }

  lemma NullPairText(a: Parts, b: Parts, not: bool)
    ensures SqlText(Keyword(not, "not ") + [Text("(")] + (a + [Text(" = null"), Text(" and ")] + b + [Text(" = null")]) + [Text(")")]) ==
            Word(not, "not ") + "(" + SqlText(a) + " = null" + " and " + SqlText(b) + " = null" + ")"
  {
    var body := a + [Text(" = null"), Text(" and ")] + b + [Text(" = null")];
    var x := Word(not, "not ") + "(";
    var (sa, sb) := (SqlText(a), SqlText(b));
    SqlText3(Keyword(not, "not "), [Text("(")], body, [Text(")")]);
    SqlTextOfKeyword(not, "not ");
    SqlTextOfText("(");
    SqlTextOfText(")");
    SqlText3(a, [Text(" = null"), Text(" and ")], b, [Text(" = null")]);
    assert [Text(" = null"), Text(" and ")] == [Text(" = null")] + [Text(" and ")];
    SqlTextConcat([Text(" = null")], [Text(" and ")]);
    SqlTextOfText(" = null");
    SqlTextOfText(" and ");
    Assoc(sa, " = null", " and ");
    assert SqlText(body) == sa + " = null" + " and " + sb + " = null";
    Assoc(x, sa + " = null" + " and " + sb, " = null");
    Assoc(x, sa + " = null" + " and ", sb);
    Assoc(x, sa + " = null", " and ");
    Assoc(x, sa, " = null");
  }

  lemma WrappedText(k: Parts, body: Parts, not: bool)
    requires k == Keyword(not, "not ")
    ensures SqlText(k + [Text("(")] + body + [Text(")")]) == Word(not, "not ") + "(" + SqlText(body) + ")"
  {
    SqlText3(k, [Text("(")], body, [Text(")")]);
    SqlTextOfKeyword(not, "not ");
    SqlTextOfText("(");
    SqlTextOfText(")");
  }

  lemma OrRowText(a: Parts, x: Parts, b: Parts, y: Parts)
    ensures SqlText([Text("(")] + a + [Text(" = ")] + x + [Text(" and ")] + b + [Text(" = ")] + y + [Text(")")]) ==
            "(" + SqlText(a) + " = " + SqlText(x) + " and " + SqlText(b) + " = " + SqlText(y) + ")"
  {
    SqlText9([Text("(")], a, [Text(" = ")], x, [Text(" and ")], b, [Text(" = ")], y, [Text(")")]);
    SqlTextOfText("(");
    SqlTextOfText(" = ");
    SqlTextOfText(" and ");
    SqlTextOfText(")");
  }

  lemma TupleText(a: Parts, b: Parts)
    ensures SqlText([Text("(")] + a + [Text(", ")] + b + [Text(")")]) == "(" + SqlText(a) + ", " + SqlText(b) + ")"
  {
    SqlText4([Text("(")], a, [Text(", ")], b, [Text(")")]);
    SqlTextOfText("(");
    SqlTextOfText(", ");
    SqlTextOfText(")");
  }

  lemma ModText(l: Parts, r: Parts)
    ensures SqlText([Text("("), Text("mod(")] + l + [Text(", ")] + r + [Text(")"), Text(")")]) ==
            "(" + "mod(" + SqlText(l) + ", " + SqlText(r) + ")" + ")"
  {
    SqlText4([Text("("), Text("mod(")], l, [Text(", ")], r, [Text(")"), Text(")")]);
    assert [Text("("), Text("mod(")] == [Text("(")] + [Text("mod(")];
    assert [Text(")"), Text(")")] == [Text(")")] + [Text(")")];
    SqlTextConcat([Text("(")], [Text("mod(")]);
    SqlTextConcat([Text(")")], [Text(")")]);
    SqlTextOfText("(");
    SqlTextOfText("mod(");
    SqlTextOfText(", ");
    SqlTextOfText(")");
  }

  lemma OperatorText(l: Parts, symbol: string, r: Parts)
    ensures SqlText([Text("(")] + l + [Text(symbol)] + r + [Text(")")]) == "(" + SqlText(l) + symbol + SqlText(r) + ")"
  {
    SqlText4([Text("(")], l, [Text(symbol)], r, [Text(")")]);
    SqlTextOfText("(");
    SqlTextOfText(symbol);
    SqlTextOfText(")");
  }

  lemma LikeTailText(pattern: Value, escape: Value)
    ensures SqlText([Text(" like "), ValuePart(pattern), Text(" escape "), ValuePart(escape)]) ==
            " like " + "?" + " escape " + "?"
  {
    var tail := [Text(" like "), ValuePart(pattern), Text(" escape "), ValuePart(escape)];
    assert tail == [Text(" like ")] + [ValuePart(pattern)] + [Text(" escape ")] + [ValuePart(escape)];
    SqlText3([Text(" like ")], [ValuePart(pattern)], [Text(" escape ")], [ValuePart(escape)]);
    SqlTextOfValue(pattern);
    SqlTextOfValue(escape);
    SqlTextOfText(" like ");
    SqlTextOfText(" escape ");
  }

  lemma LikeText(l: Parts, not: bool, pattern: Value, escape: Value)
    ensures SqlText(l + Keyword(not, " not") + [Text(" like "), ValuePart(pattern), Text(" escape "), ValuePart(escape)]) ==
            SqlText(l) + Word(not, " not") + " like " + "?" + " escape " + "?"
  {
    var x := SqlText(l) + Word(not, " not");
    SqlText2(l, Keyword(not, " not"), [Text(" like "), ValuePart(pattern), Text(" escape "), ValuePart(escape)]);
    SqlTextOfKeyword(not, " not");
    LikeTailText(pattern, escape);
    Assoc(x, " like " + "?" + " escape ", "?");
    Assoc(x, " like " + "?", " escape ");
    Assoc(x, " like ", "?");
  }

  /** Regrouping facts about parts, stated apart for the same reason as Assoc. */
  lemma Regroup(x: Parts, a: Parts, b: Parts)
    ensures x + (a + b) == x + a + b
  {
  }

  lemma DropEmpty(x: Parts)
    ensures x + [] == x
  {
  }

  // ---------------------------------------------------------------- IN lists

  /** An empty IN list renders `in (null)`, after " not" for the negated form. */
  lemma EmptyInListShape(env: Env, c: Criterion)
    requires (c.InList? || c.NotInList?) && |c.list| == 0
    ensures CriterionParts(env, c).Ok? <==> OperandParts(env, c.left).Ok?
    ensures CriterionParts(env, c).Ok? ==>
      SqlText(CriterionParts(env, c).value) ==
      SqlText(OperandParts(env, c.left).value) + Word(c.NotInList?, " not") + " in (" + "null" + ")"
  {
    var l := OperandParts(env, c.left);
    if l.Ok? {
      InNullText(l.value, c.NotInList?);
    }
  }

  /** Items of a rendered list, as rendering the first n-1 of them and then the separator and the last. */
  function Then(first: Rendered, rest: Rendered): Rendered {
    var a :- first;
    var b :- rest;
    Ok(a + b)
  }

  /**
   * An IN list of two or more operands is the list without its last operand, then ", "
   * and the last operand: the separator never trails.
   */
  lemma {:induction false} OperandsEndWithLast(env: Env, list: seq<Operand>, i: nat)
    requires i + 1 < |list|
    ensures OperandsFrom(env, list, i) ==
            Then(OperandsFrom(env, list[..|list| - 1], i), Prepend([Text(", ")], OperandParts(env, list[|list| - 1])))
    decreases |list| - i
  {
    var init := list[..|list| - 1];
    var last := OperandParts(env, list[|list| - 1]);
    var p := OperandParts(env, list[i]);
    assert init[i] == list[i];
    if i + 2 == |list| {
      assert OperandsFrom(env, init, i + 1) == Ok([]);
      if p.Ok? && last.Ok? {
        assert OperandsFrom(env, list, i + 1) == Ok([Text(", ")] + last.value + []);
        DropEmpty(Keyword(i > 0, ", ") + p.value);
        DropEmpty([Text(", ")] + last.value);
        Regroup(Keyword(i > 0, ", ") + p.value, [Text(", ")], last.value);
      }
    } else {
      OperandsEndWithLast(env, list, i + 1);
      var front := OperandsFrom(env, init, i + 1);
      if p.Ok? && front.Ok? && last.Ok? {
        Regroup(Keyword(i > 0, ", ") + p.value, front.value, [Text(", ")] + last.value);
      }
    }
  }

  lemma {:induction false} TuplesEndWithLast(env: Env, rows: seq<OperandPair>, i: nat)
    requires i + 1 < |rows|
    ensures TuplesFrom(env, rows, i) ==
            Then(TuplesFrom(env, rows[..|rows| - 1], i), Prepend([Text(", ")], TupleParts(env, rows[|rows| - 1])))
    decreases |rows| - i
  {
    var init := rows[..|rows| - 1];
    var last := TupleParts(env, rows[|rows| - 1]);
    var p := TupleParts(env, rows[i]);
    assert init[i] == rows[i];
    if i + 2 == |rows| {
      assert TuplesFrom(env, init, i + 1) == Ok([]);
      if p.Ok? && last.Ok? {
        assert TuplesFrom(env, rows, i + 1) == Ok([Text(", ")] + last.value + []);
        DropEmpty(Keyword(i > 0, ", ") + p.value);
        DropEmpty([Text(", ")] + last.value);
        Regroup(Keyword(i > 0, ", ") + p.value, [Text(", ")], last.value);
      }
    } else {
      TuplesEndWithLast(env, rows, i + 1);
      var front := TuplesFrom(env, init, i + 1);
      if p.Ok? && front.Ok? && last.Ok? {
        Regroup(Keyword(i > 0, ", ") + p.value, front.value, [Text(", ")] + last.value);
      }
    }
  }

  lemma {:induction false} OrRowsEndWithLast(env: Env, first: Rendered, second: Rendered, rows: seq<OperandPair>, i: nat)
    requires i + 1 < |rows|
    ensures OrRowsFrom(env, first, second, rows, i) ==
            Then(OrRowsFrom(env, first, second, rows[..|rows| - 1], i),
                 Prepend([Text(" or ")], OrRowParts(env, first, second, rows[|rows| - 1])))
    decreases |rows| - i
  {
    var init := rows[..|rows| - 1];
    var last := OrRowParts(env, first, second, rows[|rows| - 1]);
    var p := OrRowParts(env, first, second, rows[i]);
    assert init[i] == rows[i];
    if i + 2 == |rows| {
      assert OrRowsFrom(env, first, second, init, i + 1) == Ok([]);
      if p.Ok? && last.Ok? {
        assert OrRowsFrom(env, first, second, rows, i + 1) == Ok([Text(" or ")] + last.value + []);
        DropEmpty(Keyword(i > 0, " or ") + p.value);
        DropEmpty([Text(" or ")] + last.value);
        Regroup(Keyword(i > 0, " or ") + p.value, [Text(" or ")], last.value);
      }
    } else {
      OrRowsEndWithLast(env, first, second, rows, i + 1);
      var front := OrRowsFrom(env, first, second, init, i + 1);
      if p.Ok? && front.Ok? && last.Ok? {
        Regroup(Keyword(i > 0, " or ") + p.value, front.value, [Text(" or ")] + last.value);
      }
    }
  }

  /**
   * A conjunction of two or more criteria is the conjunction without its last criterion,
   * then the last criterion's separator (" and ", or its own operator for a non-empty
   * AND/OR) and the last criterion.
   */
  lemma {:induction false} CriteriaEndWithLast(env: Env, criteria: seq<Criterion>, i: nat)
    requires i + 1 < |criteria|
    ensures CriteriaFrom(env, criteria, i) ==
            Then(CriteriaFrom(env, criteria[..|criteria| - 1], i),
                 Prepend([Text(Separator(criteria[|criteria| - 1]))], CriterionParts(env, criteria[|criteria| - 1])))
    decreases |criteria| - i
  {
    var init := criteria[..|criteria| - 1];
    var c := criteria[|criteria| - 1];
    var last := CriterionParts(env, c);
    var p := CriterionParts(env, criteria[i]);
    var k := Keyword(i > 0, Separator(criteria[i]));
    assert init[i] == criteria[i];
    if i + 2 == |criteria| {
      assert CriteriaFrom(env, init, i + 1) == Ok([]);
      if p.Ok? && last.Ok? {
        assert CriteriaFrom(env, criteria, i + 1) == Ok([Text(Separator(c))] + last.value + []);
        DropEmpty(k + p.value);
        DropEmpty([Text(Separator(c))] + last.value);
        Regroup(k + p.value, [Text(Separator(c))], last.value);
      }
    } else {
      CriteriaEndWithLast(env, criteria, i + 1);
      var front := CriteriaFrom(env, init, i + 1);
      if p.Ok? && front.Ok? && last.Ok? {
        Regroup(k + p.value, front.value, [Text(Separator(c))] + last.value);
      }
    }
  }

  /** One row of a two-column IN list renders `(v1, v2)`. */
  lemma TupleShape(env: Env, row: OperandPair)
    ensures TupleParts(env, row).Ok? <==> OperandParts(env, row.first).Ok? && OperandParts(env, row.second).Ok?
    ensures TupleParts(env, row).Ok? ==>
      SqlText(TupleParts(env, row).value) ==
      "(" + SqlText(OperandParts(env, row.first).value) + ", " + SqlText(OperandParts(env, row.second).value) + ")"
  {
    var a := OperandParts(env, row.first);
    var b := OperandParts(env, row.second);
    if a.Ok? && b.Ok? {
      TupleText(a.value, b.value);
    }
  }

  /**
   * With multi-column IN support a two-column IN list renders `(a, b) in (...)`, holding
   * the rows, or `(null, null)` when there are none.
   */
  lemma RowValueInListShape(env: Env, c: Criterion)
    requires (c.InList2? || c.NotInList2?) && env.dialect.supportsMultipleColumnsInInPredicate
    ensures CriterionParts(env, c).Ok? <==>
      OperandParts(env, c.leftPair.first).Ok? && OperandParts(env, c.leftPair.second).Ok? &&
      (|c.rows| == 0 || TuplesFrom(env, c.rows, 0).Ok?)
    ensures CriterionParts(env, c).Ok? ==>
      SqlText(CriterionParts(env, c).value) ==
      "(" + SqlText(OperandParts(env, c.leftPair.first).value) + ", " + SqlText(OperandParts(env, c.leftPair.second).value) + ")" +
      Word(c.NotInList2?, " not") + " in (" +
      (if |c.rows| == 0 then "(null, null)" else SqlText(TuplesFrom(env, c.rows, 0).value)) + ")"
  {
    if |c.rows| == 0 {
      NoRowsInListShape(env, c);
    } else {
      RowsInListShape(env, c);
    }
  }

  lemma NoRowsInListShape(env: Env, c: Criterion)
    requires (c.InList2? || c.NotInList2?) && env.dialect.supportsMultipleColumnsInInPredicate && |c.rows| == 0
    ensures CriterionParts(env, c).Ok? <==>
      OperandParts(env, c.leftPair.first).Ok? && OperandParts(env, c.leftPair.second).Ok?
    ensures CriterionParts(env, c).Ok? ==>
      SqlText(CriterionParts(env, c).value) ==
      "(" + SqlText(OperandParts(env, c.leftPair.first).value) + ", " + SqlText(OperandParts(env, c.leftPair.second).value) + ")" +
      Word(c.NotInList2?, " not") + " in (" + "(null, null)" + ")"
  {
    var a := OperandParts(env, c.leftPair.first);
    var b := OperandParts(env, c.leftPair.second);
    if a.Ok? && b.Ok? {
      PairInText(a.value, b.value, c.NotInList2?, [Text("(null, null)")]);
      SqlTextOfText("(null, null)");
    }
  }

  lemma RowsInListShape(env: Env, c: Criterion)
    requires (c.InList2? || c.NotInList2?) && env.dialect.supportsMultipleColumnsInInPredicate && |c.rows| > 0
    ensures CriterionParts(env, c).Ok? <==>
      OperandParts(env, c.leftPair.first).Ok? && OperandParts(env, c.leftPair.second).Ok? && TuplesFrom(env, c.rows, 0).Ok?
    ensures CriterionParts(env, c).Ok? ==>
      SqlText(CriterionParts(env, c).value) ==
      "(" + SqlText(OperandParts(env, c.leftPair.first).value) + ", " + SqlText(OperandParts(env, c.leftPair.second).value) + ")" +
      Word(c.NotInList2?, " not") + " in (" + SqlText(TuplesFrom(env, c.rows, 0).value) + ")"
  {
    var a := OperandParts(env, c.leftPair.first);
    var b := OperandParts(env, c.leftPair.second);
    var items := TuplesFrom(env, c.rows, 0);
    if a.Ok? && b.Ok? && items.Ok? {
      PairInText(a.value, b.value, c.NotInList2?, items.value);
    }
  }

  /** Without multi-column IN support and without rows: `(a = null and b = null)`. */
  lemma NullPairShape(env: Env, c: Criterion)
    requires (c.InList2? || c.NotInList2?) && !env.dialect.supportsMultipleColumnsInInPredicate && |c.rows| == 0
    ensures CriterionParts(env, c).Ok? <==> OperandParts(env, c.leftPair.first).Ok? && OperandParts(env, c.leftPair.second).Ok?
    ensures CriterionParts(env, c).Ok? ==>
      SqlText(CriterionParts(env, c).value) ==
      Word(c.NotInList2?, "not ") + "(" + SqlText(OperandParts(env, c.leftPair.first).value) + " = null" + " and " +
      SqlText(OperandParts(env, c.leftPair.second).value) + " = null" + ")"
  {
    var a := OperandParts(env, c.leftPair.first);
    var b := OperandParts(env, c.leftPair.second);
    if a.Ok? && b.Ok? {
      NullPairText(a.value, b.value, c.NotInList2?);
    }
  }

  /** Without multi-column IN support, the rows are expanded into ORs inside parentheses. */
  lemma ExpandedInListShape(env: Env, c: Criterion)
    requires (c.InList2? || c.NotInList2?) && !env.dialect.supportsMultipleColumnsInInPredicate && |c.rows| > 0
    ensures CriterionParts(env, c).Ok? <==>
      OrRowsFrom(env, OperandParts(env, c.leftPair.first), OperandParts(env, c.leftPair.second), c.rows, 0).Ok?
    ensures CriterionParts(env, c).Ok? ==>
      SqlText(CriterionParts(env, c).value) ==
      Word(c.NotInList2?, "not ") + "(" +
      SqlText(OrRowsFrom(env, OperandParts(env, c.leftPair.first), OperandParts(env, c.leftPair.second), c.rows, 0).value) + ")"
  {
    var body := OrRowsFrom(env, OperandParts(env, c.leftPair.first), OperandParts(env, c.leftPair.second), c.rows, 0);
    if body.Ok? {
      WrappedText(Keyword(c.NotInList2?, "not "), body.value, c.NotInList2?);
    }
  }

  /** Each row of the OR expansion renders `(a = v1 and b = v2)`, the left columns written again. */
  lemma OrRowShape(env: Env, first: Rendered, second: Rendered, row: OperandPair)
    requires first.Ok? && second.Ok?
    ensures OrRowParts(env, first, second, row).Ok? <==>
      OperandParts(env, row.first).Ok? && OperandParts(env, row.second).Ok?
    ensures OrRowParts(env, first, second, row).Ok? ==>
      SqlText(OrRowParts(env, first, second, row).value) ==
      "(" + SqlText(first.value) + " = " + SqlText(OperandParts(env, row.first).value) + " and " +
      SqlText(second.value) + " = " + SqlText(OperandParts(env, row.second).value) + ")"
  {
    var x := OperandParts(env, row.first);
    var y := OperandParts(env, row.second);
    if x.Ok? && y.Ok? {
      OrRowText(first.value, x.value, second.value, y.value);
    }
  }

  // ---------------------------------------------------------------- columns

  /**
   * Arithmetic is always parenthesised; modulo is written `mod(l, r)` when the dialect has
   * no modulo operator, and every other case as `l <symbol> r`, modulo as " % ".
   */
  lemma ArithmeticShape(env: Env, a: Arithmetic)
    ensures ArithmeticParts(env, a).Ok? <==> OperandParts(env, a.left).Ok? && OperandParts(env, a.right).Ok?
    ensures ArithmeticParts(env, a).Ok? ==>
      SqlText(ArithmeticParts(env, a).value) ==
      if a.Mod? && !env.dialect.supportsModuloOperator then
        "(" + "mod(" + SqlText(OperandParts(env, a.left).value) + ", " + SqlText(OperandParts(env, a.right).value) + ")" + ")"
      else
        "(" + SqlText(OperandParts(env, a.left).value) + ArithmeticSymbol(a) + SqlText(OperandParts(env, a.right).value) + ")"
  {
    var l := OperandParts(env, a.left);
    var r := OperandParts(env, a.right);
    if l.Ok? && r.Ok? {
      if a.Mod? && !env.dialect.supportsModuloOperator {
        ModText(l.value, r.value);
      } else {
        OperatorText(l.value, ArithmeticSymbol(a), r.value);
      }
    }
  }

  /** A table in NAME_AND_ALIAS position: the name, then " as" when the dialect has it and " alias", unless the alias is blank. */
  lemma TableShape(env: Env, t: TableExpression, nameType: TableNameType)
    ensures TableParts(env, t, nameType).Err? <==> nameType != NameOnly && t !in env.aliases
    ensures TableParts(env, t, nameType).Err? ==> TableParts(env, t, nameType).error == AliasNotFound(t)
    ensures TableParts(env, t, nameType).Ok? ==>
      SqlText(TableParts(env, t, nameType).value) ==
      match nameType
      case NameOnly => env.metamodel.tableName(t)
      case AliasOnly => env.aliases[t]
      case NameAndAlias =>
        env.metamodel.tableName(t) +
        (if IsBlank(env.aliases[t]) then ""
         else Word(env.dialect.supportsAsKeywordForTableAlias, " as") + " " + env.aliases[t])
  {
    var name := env.metamodel.tableName(t);
    SqlTextOfText(name);
    if t in env.aliases {
      var alias := env.aliases[t];
      SqlTextOfText(alias);
      if nameType.NameAndAlias? {
        if IsBlank(alias) {
          DropEmpty([Text(name)]);
        } else {
          AliasedNameText(name, env.dialect.supportsAsKeywordForTableAlias, alias);
        }
      }
    }
  }

  lemma AliasedNameText(name: string, withAs: bool, alias: string)
    ensures SqlText([Text(name)] + (Keyword(withAs, " as") + [Text(" " + alias)])) ==
            name + (Word(withAs, " as") + " " + alias)
  {
    SqlTextConcat([Text(name)], Keyword(withAs, " as") + [Text(" " + alias)]);
    SqlTextConcat(Keyword(withAs, " as"), [Text(" " + alias)]);
    SqlTextOfText(name);
    SqlTextOfKeyword(withAs, " as");
    SqlTextOfText(" " + alias);
    Assoc(Word(withAs, " as"), " ", alias);
  }

  /** A property column renders `alias.name`, or the bare name when the owner's alias is blank. */
  lemma PropertyShape(env: Env, e: ColumnExpression)
    requires e.PropertyExpression?
    ensures ColumnParts(env, e).Err? <==> e.owner !in env.aliases
    ensures ColumnParts(env, e).Err? ==> ColumnParts(env, e).error == AliasNotFound(e.owner)
    ensures ColumnParts(env, e).Ok? ==>
      SqlText(ColumnParts(env, e).value) ==
      if IsBlank(env.aliases[e.owner]) then env.metamodel.columnName(e)
      else env.aliases[e.owner] + "." + env.metamodel.columnName(e)
  {
    if e.owner in env.aliases {
      var alias := env.aliases[e.owner];
      var name := env.metamodel.columnName(e);
      SqlTextOfText(if IsBlank(alias) then name else alias + "." + name);
    }
  }

  // ---------------------------------------------------------------- LIKE

  /**
   * LIKE renders `l like ? escape ?` and binds, after the left operand's values, the rebuilt
   * pattern with the left operand's masking, then the escape sequence in force.
   */
  lemma LikeShape(env: Env, c: Criterion)
    requires c.Like? || c.NotLike?
    ensures CriterionParts(env, c).Ok? <==> OperandParts(env, c.left).Ok?
    ensures CriterionParts(env, c).Ok? ==>
      SqlText(CriterionParts(env, c).value) ==
      SqlText(OperandParts(env, c.left).value) + Word(c.NotLike?, " not") + " like " + "?" + " escape " + "?"
    ensures CriterionParts(env, c).Ok? ==>
      BoundValues(CriterionParts(env, c).value) ==
      OperandValues(env, c.left) +
      [Value(Str(EscapeText(c.pattern, env.dialect, FinalEscapeSequence(env))), OperandMasking(c.left)),
       Value(Str(FinalEscapeSequence(env)), false)]
  {
    var l := OperandParts(env, c.left);
    LikeValuesAgree(env, c, c.NotLike?);
    if l.Ok? {
      var escapeSequence := FinalEscapeSequence(env);
      LikeText(l.value, c.NotLike?, Value(Str(EscapeText(c.pattern, env.dialect, escapeSequence)), OperandMasking(c.left)),
               Value(Str(escapeSequence), false));
    }
  }

  /** The pattern's text with every node copied as is. */
  function Verbatim(e: EscapeExpression): string {
    match e
    case LiteralText(v) => v
    case Escape(v) => v
    case Composite(l, r) => Verbatim(l) + Verbatim(r)
  }

  predicate HasEscape(e: EscapeExpression) {
    match e
    case LiteralText(_) => false
    case Escape(_) => true
    case Composite(l, r) => HasEscape(l) || HasEscape(r)
  }

  /** Only escape nodes go through the dialect: a pattern without them is used verbatim. */
  lemma {:induction false} PatternWithoutEscapeIsVerbatim(e: EscapeExpression, d: Dialect, escapeSequence: string)
    requires !HasEscape(e)
    ensures EscapeText(e, d, escapeSequence) == Verbatim(e)
  {
    match e
    case LiteralText(_) =>
    case Composite(l, r) =>
      PatternWithoutEscapeIsVerbatim(l, d, escapeSequence);
      PatternWithoutEscapeIsVerbatim(r, d, escapeSequence);
  }

  /** The literal text around escape nodes is never altered: with an escape that changes nothing, the pattern is verbatim. */
  lemma {:induction false} IdentityEscapeIsVerbatim(e: EscapeExpression, d: Dialect, escapeSequence: string)
    requires forall v :: d.escape(v, escapeSequence) == v
    ensures EscapeText(e, d, escapeSequence) == Verbatim(e)
  {
    match e
    case LiteralText(_) =>
    case Escape(_) =>
    case Composite(l, r) =>
      IdentityEscapeIsVerbatim(l, d, escapeSequence);
      IdentityEscapeIsVerbatim(r, d, escapeSequence);
  }

  // ---------------------------------------------------------------- groups

  /** AND, OR and NOT groups render nothing when empty, and otherwise their criteria in parentheses. */
  lemma GroupShape(env: Env, c: Criterion)
    requires c.And? || c.Or? || c.Not?
    ensures |c.criteria| == 0 ==> CriterionParts(env, c) == Ok([])
    ensures |c.criteria| > 0 ==> (CriterionParts(env, c).Ok? <==> CriteriaFrom(env, c.criteria, 0).Ok?)
    ensures |c.criteria| > 0 && CriterionParts(env, c).Ok? ==>
      SqlText(CriterionParts(env, c).value) == Word(c.Not?, "not ") + "(" + SqlText(CriteriaFrom(env, c.criteria, 0).value) + ")"
  {
    var cs := CriteriaFrom(env, c.criteria, 0);
    if |c.criteria| > 0 && cs.Ok? {
      if c.Not? {
        assert [Text("not "), Text("(")] == Keyword(true, "not ") + [Text("(")];
        Regroup(Keyword(true, "not ") + [Text("(")], cs.value, [Text(")")]);
      } else {
        assert [Text("(")] == Keyword(false, "not ") + [Text("(")];
        Regroup(Keyword(false, "not ") + [Text("(")], cs.value, [Text(")")]);
      }
      WrappedText(Keyword(c.Not?, "not "), cs.value, c.Not?);
    }
  }

  /**
   * An empty AND renders nothing, yet the conjunction around it still writes its
   * separator: between two plain criteria, " and " appears twice in a row.
   */
  lemma EmptyGroupDoublesSeparator(env: Env, c1: Criterion, c2: Criterion)
    requires !IsLogicalGroup(c2)
    requires CriterionParts(env, c1).Ok? && CriterionParts(env, c2).Ok?
    ensures CriteriaFrom(env, [c1, And([]), c2], 0) ==
            Ok(CriterionParts(env, c1).value + [Text(" and "), Text(" and ")] + CriterionParts(env, c2).value)
  {
    var cs := [c1, And([]), c2];
    var p1 := CriterionParts(env, c1).value;
    var p2 := CriterionParts(env, c2).value;
    assert CriterionParts(env, And([])) == Ok([]);
    assert CriteriaFrom(env, cs, 2) == Ok([Text(" and ")] + p2 + []);
    assert CriteriaFrom(env, cs, 1) == Ok([Text(" and ")] + [] + ([Text(" and ")] + p2 + []));
    assert [] + p1 + ([Text(" and ")] + [] + ([Text(" and ")] + p2 + [])) == p1 + [Text(" and "), Text(" and ")] + p2;
  }
}
