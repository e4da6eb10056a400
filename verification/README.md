# komapper statement building, modelled in Dafny

This project models the part of komapper that turns a query's expression and criterion
trees into SQL. The SQL is a list of statement parts: text fragments and bound values.
Three pieces of the original are modelled:

- `StatementBuffer` (class `Buffers.StatementBuffer`) is the mutable list of parts that a
  builder appends text, whole statements and bound values to. It also has `cutBack`, which
  removes trailing characters from the last part.
- `BuilderSupport` (class `Builder.BuilderSupport`) holds the visitors. They walk tables,
  columns, operands and criteria and append to the shared buffer. Lists are written
  with a separator after every item, and the last separator is then cut back.
- The arithmetic operators `plus`, `minus`, `times`, `div` and `rem`
  (module `ArithmeticOperators`) build arithmetic nodes from a column and either a value
  or another column.

The model is layered as follows:

- **Expressions** holds the expression and criterion trees as datatypes. It also holds the
  dialect's capabilities and the environment a builder is constructed with (dialect,
  alias assignment, escape-sequence override, table and column names, and the builders
  of nested queries).
- **Emitted** gives, for every visitor, the whole buffer after the visit, as a function of
  the buffer before it. It follows the visitor step by step, cut-backs included. Every
  method of `Builder.BuilderSupport` is proved to produce exactly that buffer and outcome.
  An exception thrown by the original (a missing alias, a refused cut-back, a dialect
  without multi-column `IN`) is a `Fail` outcome here.
- **Render** states declaratively what each visit appends: items are joined with their
  separator placed only *between* them, and groups are parenthesised. **Agreement**
  proves that the step-by-step buffer always equals the old buffer followed by that
  rendering. This means every cut-back in the original removes exactly the separator
  written after the last item, and never fails on a well-formed tree.
- **LeafValues** defines the bound values a second time, without SQL text, as a
  left-to-right walk of the tree. It proves that every rendering binds exactly those
  values, in that order. **BoundOrder** lifts this to the buffer: a visit appends the
  tree's values after those already bound.
- **Shapes** reads parts as text, with each bound value shown as `?`. It proves the fixed
  shapes the builder promises: `in (null)` for an empty list, the row-value and expanded
  forms of two-column `IN`, `mod(l, r)`, `like ? escape ?`, table and column aliases,
  and parenthesised groups.

Some behaviour of the original is kept as written, because it is what the code does:

- An `AND`/`OR`/`NOT` group with no criteria renders nothing. A conjunction holding one
  still writes the " and " after it, so " and " appears twice in a row.
  `Shapes.EmptyGroupDoublesSeparator` proves this.
- A refused `cutBack` has already removed the last part (`Buffers.StatementBuffer.CutBack`).
- `inSubQuery2` checks the dialect before writing anything.

## Model

| member | source | states |
|---|---|---|
| Buffers.StatementBuffer.constructor | komapper-core/src/main/kotlin/org/komapper/core/StatementBuffer.kt:6-7 | a new buffer holds no parts |
| Buffers.StatementBuffer.AppendText | komapper-core/src/main/kotlin/org/komapper/core/StatementBuffer.kt:9-12 | exactly one text part is added, at the end; earlier parts are kept |
| Buffers.StatementBuffer.AppendStatement | komapper-core/src/main/kotlin/org/komapper/core/StatementBuffer.kt:14-17 | every part of the statement is added at the end, in order |
| Buffers.StatementBuffer.Bind | komapper-core/src/main/kotlin/org/komapper/core/StatementBuffer.kt:19-22 | exactly one value part is added, at the end |
| Buffers.StatementBuffer.CutBack | komapper-core/src/main/kotlin/org/komapper/core/StatementBuffer.kt:24-30 | succeeds exactly when CutBackParts does and then leaves its parts; on failure reports its error, and the last part is gone (an empty buffer stays empty) |
| Buffers.StatementBuffer.ToStatement | komapper-core/src/main/kotlin/org/komapper/core/StatementBuffer.kt:32-37 | the statement holds the buffer's parts; no parts gives the canonical empty statement |
| Buffers.AppendThenCutBack | komapper-core/src/main/kotlin/org/komapper/core/StatementBuffer.kt:9-30 | appending a text and cutting back its length leaves the buffer as it was |
| Statements.CutBackParts | komapper-core/src/main/kotlin/org/komapper/core/StatementBuffer.kt:24-30 | succeeds iff the last part is a text at least n long and n >= 0; empty list → NoSuchElement, value or short text last → CannotCutBack, otherwise a negative count → NegativeCount; on success all earlier parts are kept and the last text loses exactly n characters, the part being dropped exactly when that empties it |
| Statements.CutBackAfterAppend | komapper-core/src/main/kotlin/org/komapper/core/StatementBuffer.kt:9-30 | cutting back exactly the text just appended restores the earlier parts |
| Statements.CutBackRemovesText | komapper-core/src/main/kotlin/org/komapper/core/StatementBuffer.kt:24-30 | a successful cut-back removes exactly n characters of text and never a bound value |
| Render.CriterionInConjunction | komapper-core/src/main/kotlin/org/komapper/core/dsl/builder/BuilderSupport.kt:516-529 | inside a conjunction loop, a non-empty AND/OR at index i > 0 replaces the " and " behind criterion i-1 by its own operator; any other criterion keeps it |
| Builder.BuilderSupport.constructor | komapper-core/src/main/kotlin/org/komapper/core/dsl/builder/BuilderSupport.kt:26-31 | the builder keeps the dialect, aliases, buffer and escape sequence it is given |
| Builder.BuilderSupport.VisitTableExpression | komapper-core/src/main/kotlin/org/komapper/core/dsl/builder/BuilderSupport.kt:34-55 | outcome and new buffer are those of TableInto: fails with AliasNotFound when the alias is needed and missing (see Agreement.TableAgrees, Shapes.TableShape) |
| Builder.BuilderSupport.VisitColumnExpression | komapper-core/src/main/kotlin/org/komapper/core/dsl/builder/BuilderSupport.kt:57-92 | outcome and new buffer are those of ColumnInto, dispatching on the expression kind |
| Builder.BuilderSupport.VisitAliasExpression | komapper-core/src/main/kotlin/org/komapper/core/dsl/builder/BuilderSupport.kt:94-97 | the inner column followed by " as " and the quoted alias (AliasInto) |
| Builder.BuilderSupport.VisitArithmeticExpression | komapper-core/src/main/kotlin/org/komapper/core/dsl/builder/BuilderSupport.kt:99-137 | outcome and new buffer are those of ArithmeticInto: parenthesised, with mod(l, r) for modulo without the operator |
| Builder.BuilderSupport.VisitCaseExpression | komapper-core/src/main/kotlin/org/komapper/core/dsl/builder/BuilderSupport.kt:139-158 | outcome and new buffer are those of CaseInto: WHEN branches with no criteria are skipped, the otherwise branch is optional |
| Builder.BuilderSupport.VisitLiteralExpression | komapper-core/src/main/kotlin/org/komapper/core/dsl/builder/BuilderSupport.kt:160-163 | appends the dialect's formatting of the literal as one text part |
| Builder.BuilderSupport.VisitMathematicalFunction | komapper-core/src/main/kotlin/org/komapper/core/dsl/builder/BuilderSupport.kt:165-173 | appends the dialect's random function followed by "()" |
| Builder.BuilderSupport.VisitScalarExpression | komapper-core/src/main/kotlin/org/komapper/core/dsl/builder/BuilderSupport.kt:175-184 | outcome and new buffer are those of ScalarInto |
| Builder.BuilderSupport.VisitAggregateFunction | komapper-core/src/main/kotlin/org/komapper/core/dsl/builder/BuilderSupport.kt:186-217 | outcome and new buffer are those of AggregateInto: count(*) alone, others name( column ) |
| Builder.BuilderSupport.VisitScalarQueryExpression | komapper-core/src/main/kotlin/org/komapper/core/dsl/builder/BuilderSupport.kt:219-224 | appends the nested statement in parentheses; never fails |
| Builder.BuilderSupport.BuildSubqueryStatement | komapper-core/src/main/kotlin/org/komapper/core/dsl/builder/BuilderSupport.kt:226-241 | a select is built by the select builder and a set operation by the set-operation builder, both given the current aliases and the projection predicate; with the default predicate (every column, as every visitor passes) it is the nested statement the renderings use |
| Builder.BuilderSupport.VisitStringFunction | komapper-core/src/main/kotlin/org/komapper/core/dsl/builder/BuilderSupport.kt:243-298 | outcome and new buffer are those of StringFunctionInto: the call wrapped in parentheses |
| Builder.BuilderSupport.VisitStringCall | komapper-core/src/main/kotlin/org/komapper/core/dsl/builder/BuilderSupport.kt:245-296 | outcome and new buffer are those of StringCallInto, one case per string function |
| Builder.BuilderSupport.VisitSubstringLength | komapper-core/src/main/kotlin/org/komapper/core/dsl/builder/BuilderSupport.kt:274-283 | the given length operand, else the dialect's default length if any, else nothing |
| Builder.BuilderSupport.VisitOperand | komapper-core/src/main/kotlin/org/komapper/core/dsl/builder/BuilderSupport.kt:300-309 | a column is visited; an argument binds exactly its value (OperandInto) |
| Builder.BuilderSupport.VisitCriterion | komapper-core/src/main/kotlin/org/komapper/core/dsl/builder/BuilderSupport.kt:311-339 | outcome and new buffer reflect CriterionInto for the criterion at its index |
| Builder.BuilderSupport.VisitCompound | komapper-core/src/main/kotlin/org/komapper/core/dsl/builder/BuilderSupport.kt:325-337 | outcome and new buffer reflect CompoundInto for list, subquery and group criteria |
| Builder.BuilderSupport.Binary | komapper-core/src/main/kotlin/org/komapper/core/dsl/builder/BuilderSupport.kt:343-347 | left operand, " op ", right operand (BinaryInto) |
| Builder.BuilderSupport.IsNull | komapper-core/src/main/kotlin/org/komapper/core/dsl/builder/BuilderSupport.kt:349-357 | the operand then " is null" or " is not null" (IsNullInto) |
| Builder.BuilderSupport.Like | komapper-core/src/main/kotlin/org/komapper/core/dsl/builder/BuilderSupport.kt:359-370 | the operand, " like ", the escaped pattern bound with the operand's masking, " escape ", the escape sequence bound (LikeInto) |
| Builder.BuilderSupport.Between | komapper-core/src/main/kotlin/org/komapper/core/dsl/builder/BuilderSupport.kt:388-398 | operand, optional " not", " between ", start, " and ", end (BetweenInto) |
| Builder.BuilderSupport.InList | komapper-core/src/main/kotlin/org/komapper/core/dsl/builder/BuilderSupport.kt:400-416 | the loop appends each item and ", ", then cuts the last ", " back; an empty list writes "null" (InListInto) |
| Builder.BuilderSupport.InList2 | komapper-core/src/main/kotlin/org/komapper/core/dsl/builder/BuilderSupport.kt:418-475 | outcome and new buffer are those of InList2Into, chosen by the dialect's multi-column IN support |
| Builder.BuilderSupport.RowValueInList | komapper-core/src/main/kotlin/org/komapper/core/dsl/builder/BuilderSupport.kt:423-446 | the row-value form: the loop writes each (v1, v2) and ", ", the last ", " cut back; "(null, null)" when there are no rows |
| Builder.BuilderSupport.ExpandedInList | komapper-core/src/main/kotlin/org/komapper/core/dsl/builder/BuilderSupport.kt:447-474 | the expanded form: "(a = null and b = null)" without rows, else rows joined by " or ", the last cut back |
| Builder.BuilderSupport.Row | komapper-core/src/main/kotlin/org/komapper/core/dsl/builder/BuilderSupport.kt:436-441 | one row value (v1, v2) (TupleInto) |
| Builder.BuilderSupport.OrRow | komapper-core/src/main/kotlin/org/komapper/core/dsl/builder/BuilderSupport.kt:459-468 | one row of the expansion, the left columns visited again (OrRowInto) |
| Builder.BuilderSupport.InSubQuery | komapper-core/src/main/kotlin/org/komapper/core/dsl/builder/BuilderSupport.kt:477-486 | operand, optional " not", " in (", the nested statement, ")" (InSubQueryInto) |
| Builder.BuilderSupport.InSubQuery2 | komapper-core/src/main/kotlin/org/komapper/core/dsl/builder/BuilderSupport.kt:488-504 | fails with UnsupportedOperation, writing nothing, when the dialect lacks multi-column IN; otherwise InSubQuery2Into |
| Builder.BuilderSupport.Exists | komapper-core/src/main/kotlin/org/komapper/core/dsl/builder/BuilderSupport.kt:506-514 | optional "not ", "exists (", the nested statement, ")"; never fails |
| Builder.BuilderSupport.LogicalBinary | komapper-core/src/main/kotlin/org/komapper/core/dsl/builder/BuilderSupport.kt:516-532 | an empty group writes nothing; otherwise cut back the previous " and " when index > 0, write the operator when index != 0, then the criteria in parentheses (LogicalBinaryInto) |
| Builder.BuilderSupport.Not | komapper-core/src/main/kotlin/org/komapper/core/dsl/builder/BuilderSupport.kt:534-545 | an empty group writes nothing; otherwise "not (" criteria ")" (NotInto) |
| Builder.BuilderSupport.VisitConjunction | komapper-core/src/main/kotlin/org/komapper/core/dsl/builder/BuilderSupport.kt:525-530 | the loop visits every criterion with its index followed by " and ", then cuts back the last " and " (ConjunctionInto); the invariant ties each iteration to CriteriaInto |
| Agreement.TableAgrees | komapper-core/src/main/kotlin/org/komapper/core/dsl/builder/BuilderSupport.kt:34-55 | the step-by-step buffer after a table visit is the old buffer followed by TableParts, errors included |
| Agreement.ColumnAgrees | komapper-core/src/main/kotlin/org/komapper/core/dsl/builder/BuilderSupport.kt:57-92 | visiting a column appends exactly ColumnParts, or fails with its error |
| Agreement.AliasAgrees | komapper-core/src/main/kotlin/org/komapper/core/dsl/builder/BuilderSupport.kt:94-97 | visiting an alias appends exactly AliasParts |
| Agreement.ArithmeticAgrees | komapper-core/src/main/kotlin/org/komapper/core/dsl/builder/BuilderSupport.kt:99-137 | visiting arithmetic appends exactly ArithmeticParts |
| Agreement.CaseAgrees | komapper-core/src/main/kotlin/org/komapper/core/dsl/builder/BuilderSupport.kt:139-158 | the CASE loop, with its cut-back per WHEN, appends exactly CaseParts |
| Agreement.WhensAgrees | komapper-core/src/main/kotlin/org/komapper/core/dsl/builder/BuilderSupport.kt:141-152 | WHEN branches i.. append exactly WhensFrom(i) |
| Agreement.WhenAgrees | komapper-core/src/main/kotlin/org/komapper/core/dsl/builder/BuilderSupport.kt:142-151 | one WHEN branch appends exactly WhenParts; an empty one nothing |
| Agreement.ScalarAgrees | komapper-core/src/main/kotlin/org/komapper/core/dsl/builder/BuilderSupport.kt:175-184 | visiting a scalar appends exactly ScalarParts |
| Agreement.AggregateAgrees | komapper-core/src/main/kotlin/org/komapper/core/dsl/builder/BuilderSupport.kt:186-217 | visiting an aggregate appends exactly AggregateParts |
| Agreement.StringFunctionAgrees | komapper-core/src/main/kotlin/org/komapper/core/dsl/builder/BuilderSupport.kt:243-298 | visiting a string function appends exactly StringFunctionParts |
| Agreement.StringCallAgrees | komapper-core/src/main/kotlin/org/komapper/core/dsl/builder/BuilderSupport.kt:245-296 | the call inside the parentheses appends exactly StringCallParts |
| Agreement.UnaryCallAgrees | komapper-core/src/main/kotlin/org/komapper/core/dsl/builder/BuilderSupport.kt:253-295 | lower/ltrim/rtrim/trim/upper append their name, the operand and ")" |
| Agreement.ConcatAgrees | komapper-core/src/main/kotlin/org/komapper/core/dsl/builder/BuilderSupport.kt:246-252 | concat appends "concat(", both operands separated by ", ", ")" |
| Agreement.SubstringAgrees | komapper-core/src/main/kotlin/org/komapper/core/dsl/builder/BuilderSupport.kt:268-285 | substring appends its call as StringCallParts says |
| Agreement.SubstringLengthAgrees | komapper-core/src/main/kotlin/org/komapper/core/dsl/builder/BuilderSupport.kt:274-283 | the length argument appends exactly SubstringLengthParts |
| Agreement.OperandAgrees | komapper-core/src/main/kotlin/org/komapper/core/dsl/builder/BuilderSupport.kt:300-309 | visiting an operand appends exactly OperandParts |
| Agreement.CriterionAgrees | komapper-core/src/main/kotlin/org/komapper/core/dsl/builder/BuilderSupport.kt:311-339 | visiting a criterion at an index yields CriterionAt: the rendering appended, after the cut-back and operator of a non-empty AND/OR |
| Agreement.ComparisonAgrees | komapper-core/src/main/kotlin/org/komapper/core/dsl/builder/BuilderSupport.kt:313-318 | the six comparisons agree with CriterionAt |
| Agreement.OperandPredicateAgrees | komapper-core/src/main/kotlin/org/komapper/core/dsl/builder/BuilderSupport.kt:319-324 | IS NULL, LIKE and BETWEEN agree with CriterionAt |
| Agreement.CompoundAgrees | komapper-core/src/main/kotlin/org/komapper/core/dsl/builder/BuilderSupport.kt:325-337 | list, subquery and group criteria agree with CriterionAt |
| Agreement.BinaryAgrees | komapper-core/src/main/kotlin/org/komapper/core/dsl/builder/BuilderSupport.kt:343-347 | a comparison appends exactly BinaryParts |
| Agreement.IsNullAgrees | komapper-core/src/main/kotlin/org/komapper/core/dsl/builder/BuilderSupport.kt:349-357 | IS [NOT] NULL appends exactly IsNullParts |
| Agreement.LikeAgrees | komapper-core/src/main/kotlin/org/komapper/core/dsl/builder/BuilderSupport.kt:359-370 | LIKE appends exactly LikeParts |
| Agreement.BetweenAgrees | komapper-core/src/main/kotlin/org/komapper/core/dsl/builder/BuilderSupport.kt:388-398 | BETWEEN appends exactly BetweenParts |
| Agreement.InListAgrees | komapper-core/src/main/kotlin/org/komapper/core/dsl/builder/BuilderSupport.kt:400-416 | the IN-list loop and its cut-back of ", " append exactly InListParts |
| Agreement.OperandsAgrees | komapper-core/src/main/kotlin/org/komapper/core/dsl/builder/BuilderSupport.kt:409-413 | items i.. each followed by ", " give OperandsFrom(i) followed by ", " |
| Agreement.InList2Agrees | komapper-core/src/main/kotlin/org/komapper/core/dsl/builder/BuilderSupport.kt:418-475 | a two-column IN list appends exactly InList2Parts |
| Agreement.RowValueAgrees | komapper-core/src/main/kotlin/org/komapper/core/dsl/builder/BuilderSupport.kt:423-446 | the row-value form appends exactly InList2Parts |
| Agreement.TuplesAgrees | komapper-core/src/main/kotlin/org/komapper/core/dsl/builder/BuilderSupport.kt:436-444 | rows i.. each followed by ", " give TuplesFrom(i) followed by ", " |
| Agreement.TupleAgrees | komapper-core/src/main/kotlin/org/komapper/core/dsl/builder/BuilderSupport.kt:437-441 | one row value appends exactly TupleParts |
| Agreement.NullPairAgrees | komapper-core/src/main/kotlin/org/komapper/core/dsl/builder/BuilderSupport.kt:447-457 | the row-less expanded form appends exactly InList2Parts |
| Agreement.OrRowListAgrees | komapper-core/src/main/kotlin/org/komapper/core/dsl/builder/BuilderSupport.kt:447-474 | the expanded form with rows appends exactly InList2Parts |
| Agreement.OrRowsAgrees | komapper-core/src/main/kotlin/org/komapper/core/dsl/builder/BuilderSupport.kt:459-471 | rows i.. each followed by " or " give OrRowsFrom(i) followed by " or " |
| Agreement.OrRowAgrees | komapper-core/src/main/kotlin/org/komapper/core/dsl/builder/BuilderSupport.kt:460-468 | one expanded row appends exactly OrRowParts |
| Agreement.InSubQueryAgrees | komapper-core/src/main/kotlin/org/komapper/core/dsl/builder/BuilderSupport.kt:477-486 | IN subquery appends exactly InSubQueryParts |
| Agreement.InSubQuery2Agrees | komapper-core/src/main/kotlin/org/komapper/core/dsl/builder/BuilderSupport.kt:488-504 | two-column IN subquery appends exactly InSubQuery2Parts, or fails unsupported |
| Agreement.ExistsAgrees | komapper-core/src/main/kotlin/org/komapper/core/dsl/builder/BuilderSupport.kt:506-514 | EXISTS appends exactly ExistsParts |
| Agreement.LogicalBinaryAgrees | komapper-core/src/main/kotlin/org/komapper/core/dsl/builder/BuilderSupport.kt:516-532 | a non-empty AND/OR, cut-back and operator included, agrees with CriterionAt |
| Agreement.NotAgrees | komapper-core/src/main/kotlin/org/komapper/core/dsl/builder/BuilderSupport.kt:534-545 | NOT appends exactly NotParts |
| Agreement.ConjunctionAgrees | komapper-core/src/main/kotlin/org/komapper/core/dsl/builder/BuilderSupport.kt:525-530 | a non-empty conjunction loop with its final cut-back appends the criteria with separators only between them |
| Agreement.CriteriaAgrees | komapper-core/src/main/kotlin/org/komapper/core/dsl/builder/BuilderSupport.kt:525-528 | criteria i.. each followed by " and " give CriteriaFrom(i) followed by " and " |
| LeafValues.OperandValuesAgree | komapper-core/src/main/kotlin/org/komapper/core/dsl/builder/BuilderSupport.kt:300-309 | an operand binds exactly the values of the reference walk: its own argument, or its column's |
| LeafValues.ColumnValuesAgree | komapper-core/src/main/kotlin/org/komapper/core/dsl/builder/BuilderSupport.kt:57-97 | a column binds exactly ColumnValues, left to right |
| LeafValues.ArithmeticValuesAgree | komapper-core/src/main/kotlin/org/komapper/core/dsl/builder/BuilderSupport.kt:99-137 | arithmetic binds the left operand's values then the right's, in both the operator and the mod(l, r) form |
| LeafValues.CaseValuesAgree | komapper-core/src/main/kotlin/org/komapper/core/dsl/builder/BuilderSupport.kt:139-158 | CASE binds its branches' values in order, then the otherwise branch's |
| LeafValues.WhensValuesAgree | komapper-core/src/main/kotlin/org/komapper/core/dsl/builder/BuilderSupport.kt:141-152 | WHEN branches i.. bind WhensValues(i) |
| LeafValues.WhenValuesAgree | komapper-core/src/main/kotlin/org/komapper/core/dsl/builder/BuilderSupport.kt:142-151 | a WHEN binds its criteria's values then the result operand's; an empty one nothing |
| LeafValues.ScalarValuesAgree | komapper-core/src/main/kotlin/org/komapper/core/dsl/builder/BuilderSupport.kt:175-224 | an aggregate binds its column's values; a scalar subquery exactly the nested statement's |
| LeafValues.StringFunctionValuesAgree | komapper-core/src/main/kotlin/org/komapper/core/dsl/builder/BuilderSupport.kt:243-298 | a string function binds its operands' values in order |
| LeafValues.StringCallValuesAgree | komapper-core/src/main/kotlin/org/komapper/core/dsl/builder/BuilderSupport.kt:245-296 | each string call binds its operands' values in order |
| LeafValues.UnaryCallValuesAgree | komapper-core/src/main/kotlin/org/komapper/core/dsl/builder/BuilderSupport.kt:253-295 | a one-operand call binds exactly its operand's values |
| LeafValues.SubstringValuesAgree | komapper-core/src/main/kotlin/org/komapper/core/dsl/builder/BuilderSupport.kt:268-285 | substring binds target, start, then the length's values |
| LeafValues.SubstringLengthValuesAgree | komapper-core/src/main/kotlin/org/komapper/core/dsl/builder/BuilderSupport.kt:274-283 | the default length binds nothing; a length operand its values |
| LeafValues.CriterionValuesAgree | komapper-core/src/main/kotlin/org/komapper/core/dsl/builder/BuilderSupport.kt:311-339 | every criterion binds exactly CriterionValues, left to right |
| LeafValues.ComparisonValuesAgree | komapper-core/src/main/kotlin/org/komapper/core/dsl/builder/BuilderSupport.kt:313-318 | a comparison binds left then right |
| LeafValues.OperandPredicateValuesAgree | komapper-core/src/main/kotlin/org/komapper/core/dsl/builder/BuilderSupport.kt:319-324 | IS NULL, LIKE and BETWEEN bind as CriterionValues says |
| LeafValues.ListPredicateValuesAgree | komapper-core/src/main/kotlin/org/komapper/core/dsl/builder/BuilderSupport.kt:325-328 | IN lists bind as CriterionValues says |
| LeafValues.SubqueryPredicateValuesAgree | komapper-core/src/main/kotlin/org/komapper/core/dsl/builder/BuilderSupport.kt:329-334 | IN subquery and EXISTS bind as CriterionValues says |
| LeafValues.BinaryValuesAgree | komapper-core/src/main/kotlin/org/komapper/core/dsl/builder/BuilderSupport.kt:343-347 | left operand's values then right operand's |
| LeafValues.IsNullValuesAgree | komapper-core/src/main/kotlin/org/komapper/core/dsl/builder/BuilderSupport.kt:349-357 | only the operand's values |
| LeafValues.LikeValuesAgree | komapper-core/src/main/kotlin/org/komapper/core/dsl/builder/BuilderSupport.kt:359-370 | the operand's values, then the escaped pattern with the operand's masking, then the unmasked escape sequence |
| LeafValues.BetweenValuesAgree | komapper-core/src/main/kotlin/org/komapper/core/dsl/builder/BuilderSupport.kt:388-398 | the operand's values, then start's, then end's |
| LeafValues.InListValuesAgree | komapper-core/src/main/kotlin/org/komapper/core/dsl/builder/BuilderSupport.kt:400-416 | the operand's values then each item's; an empty list binds nothing more |
| LeafValues.OperandListValuesAgree | komapper-core/src/main/kotlin/org/komapper/core/dsl/builder/BuilderSupport.kt:409-413 | items i.. bind their values in order |
| LeafValues.InList2ValuesAgree | komapper-core/src/main/kotlin/org/komapper/core/dsl/builder/BuilderSupport.kt:418-475 | a two-column IN list binds as CriterionValues says, in every form |
| LeafValues.TuplesListValuesAgree | komapper-core/src/main/kotlin/org/komapper/core/dsl/builder/BuilderSupport.kt:423-446 | the row-value form binds the left pair then each row |
| LeafValues.NullPairValuesAgree | komapper-core/src/main/kotlin/org/komapper/core/dsl/builder/BuilderSupport.kt:452-457 | the row-less expansion binds the left pair once |
| LeafValues.OrRowListValuesAgree | komapper-core/src/main/kotlin/org/komapper/core/dsl/builder/BuilderSupport.kt:458-472 | the expansion binds, for every row, the left pair's values interleaved with the row's |
| LeafValues.TupleValuesAgree | komapper-core/src/main/kotlin/org/komapper/core/dsl/builder/BuilderSupport.kt:437-441 | a row value binds first then second |
| LeafValues.TuplesValuesAgree | komapper-core/src/main/kotlin/org/komapper/core/dsl/builder/BuilderSupport.kt:436-444 | rows i.. bind in order |
| LeafValues.OrRowValuesAgree | komapper-core/src/main/kotlin/org/komapper/core/dsl/builder/BuilderSupport.kt:460-468 | an expanded row binds a, v1, b, v2 in that order |
| LeafValues.OrRowsValuesAgree | komapper-core/src/main/kotlin/org/komapper/core/dsl/builder/BuilderSupport.kt:459-471 | expanded rows i.. bind in order |
| LeafValues.InSubQueryValuesAgree | komapper-core/src/main/kotlin/org/komapper/core/dsl/builder/BuilderSupport.kt:477-486 | the operand's values then the nested statement's |
| LeafValues.InSubQuery2ValuesAgree | komapper-core/src/main/kotlin/org/komapper/core/dsl/builder/BuilderSupport.kt:488-504 | the left pair's values then the nested statement's |
| LeafValues.ExistsValuesAgree | komapper-core/src/main/kotlin/org/komapper/core/dsl/builder/BuilderSupport.kt:506-514 | exactly the nested statement's values |
| LeafValues.GroupValuesAgree | komapper-core/src/main/kotlin/org/komapper/core/dsl/builder/BuilderSupport.kt:516-545 | an AND/OR/NOT group binds its criteria's values; an empty one nothing |
| LeafValues.CriteriaValuesAgree | komapper-core/src/main/kotlin/org/komapper/core/dsl/builder/BuilderSupport.kt:525-529 | criteria i.. bind their values in order; separators bind nothing |
| BoundOrder.ColumnBindsInOrder | komapper-core/src/main/kotlin/org/komapper/core/dsl/builder/BuilderSupport.kt:57-92 | after visiting a column, the buffer's bound values are the old ones followed by the column's, in order |
| BoundOrder.OperandBindsInOrder | komapper-core/src/main/kotlin/org/komapper/core/dsl/builder/BuilderSupport.kt:300-309 | after visiting an operand, the old bound values followed by the operand's |
| BoundOrder.ConjunctionBindsInOrder | komapper-core/src/main/kotlin/org/komapper/core/dsl/builder/BuilderSupport.kt:525-530 | after a non-empty conjunction and its cut-back, the old bound values followed by every criterion's, in order |
| Shapes.EmptyInListShape | komapper-core/src/main/kotlin/org/komapper/core/dsl/builder/BuilderSupport.kt:400-416 | an empty IN list renders "l in (null)" (or "l not in (null)"), failing only when the operand does |
| Shapes.OperandsEndWithLast | komapper-core/src/main/kotlin/org/komapper/core/dsl/builder/BuilderSupport.kt:409-413 | the IN-list items end with ", " and the last item: the cut-back leaves no trailing separator |
| Shapes.TuplesEndWithLast | komapper-core/src/main/kotlin/org/komapper/core/dsl/builder/BuilderSupport.kt:436-444 | row values end with ", " and the last row |
| Shapes.OrRowsEndWithLast | komapper-core/src/main/kotlin/org/komapper/core/dsl/builder/BuilderSupport.kt:459-471 | expanded rows end with " or " and the last row |
| Shapes.CriteriaEndWithLast | komapper-core/src/main/kotlin/org/komapper/core/dsl/builder/BuilderSupport.kt:525-529 | criteria end with the last criterion's separator and the last criterion |
| Shapes.TupleShape | komapper-core/src/main/kotlin/org/komapper/core/dsl/builder/BuilderSupport.kt:437-441 | a row value renders "(v1, v2)" |
| Shapes.RowValueInListShape | komapper-core/src/main/kotlin/org/komapper/core/dsl/builder/BuilderSupport.kt:423-446 | "(a, b) [not] in (rows)", "(null, null)" standing for no rows; fails only when a, b or a row does |
| Shapes.NullPairShape | komapper-core/src/main/kotlin/org/komapper/core/dsl/builder/BuilderSupport.kt:448-457 | "[not ](a = null and b = null)" when the dialect lacks multi-column IN and there are no rows |
| Shapes.ExpandedInListShape | komapper-core/src/main/kotlin/org/komapper/core/dsl/builder/BuilderSupport.kt:447-474 | "[not ](rows)", the rows expanded into ORs, when the dialect lacks multi-column IN |
| Shapes.OrRowShape | komapper-core/src/main/kotlin/org/komapper/core/dsl/builder/BuilderSupport.kt:460-468 | each expanded row renders "(a = v1 and b = v2)" |
| Shapes.ArithmeticShape | komapper-core/src/main/kotlin/org/komapper/core/dsl/builder/BuilderSupport.kt:99-137 | arithmetic is always parenthesised; modulo is "mod(l, r)" without the dialect's operator, every other case "l op r" |
| Shapes.TableShape | komapper-core/src/main/kotlin/org/komapper/core/dsl/builder/BuilderSupport.kt:34-55 | NAME_ONLY gives the name; ALIAS_ONLY the alias; NAME_AND_ALIAS the name, then " as" if the dialect has it and " alias", unless the alias is blank; missing alias fails exactly outside NAME_ONLY |
| Shapes.PropertyShape | komapper-core/src/main/kotlin/org/komapper/core/dsl/builder/BuilderSupport.kt:80-90 | "alias.name", or the bare name when the alias is blank; AliasNotFound exactly when the owner has no alias |
| Shapes.LikeShape | komapper-core/src/main/kotlin/org/komapper/core/dsl/builder/BuilderSupport.kt:359-370 | "l [not] like ? escape ?", binding the left operand's values, then the rebuilt pattern masked like the operand, then the escape sequence |
| Shapes.PatternWithoutEscapeIsVerbatim | komapper-core/src/main/kotlin/org/komapper/core/dsl/builder/BuilderSupport.kt:372-386 | a pattern without escape nodes is used verbatim |
| Shapes.IdentityEscapeIsVerbatim | komapper-core/src/main/kotlin/org/komapper/core/dsl/builder/BuilderSupport.kt:372-386 | only escape nodes pass through the dialect: literal text is never altered |
| Shapes.GroupShape | komapper-core/src/main/kotlin/org/komapper/core/dsl/builder/BuilderSupport.kt:516-545 | an empty group renders nothing; otherwise "(criteria)" for AND/OR and "not (criteria)" for NOT |
| Shapes.EmptyGroupDoublesSeparator | komapper-core/src/main/kotlin/org/komapper/core/dsl/builder/BuilderSupport.kt:516-545 | an empty AND between two plain criteria leaves " and " twice in a row |
| ArithmeticOperators.ApplyValue | komapper-core/src/main/kotlin/org/komapper/core/dsl/operator/ArithmeticOperators.kt:10-86 | the node is owned by x, its left operand is x and its right an argument of x's type; the variant follows the operator (rem → Mod); masking follows x |
| ArithmeticOperators.ApplyColumn | komapper-core/src/main/kotlin/org/komapper/core/dsl/operator/ArithmeticOperators.kt:19-95 | the node is owned by x, with x and the other column as operands; the variant follows the operator |
| ArithmeticOperators.ValueOperatorRendering | komapper-core/src/main/kotlin/org/komapper/core/dsl/operator/ArithmeticOperators.kt:10-86 | x op v renders "(x op ?)", or "(mod(x, ?))" for rem without the operator; fails exactly when x does; binds x's values then exactly v, masked like x |
| ArithmeticOperators.ColumnOperatorRendering | komapper-core/src/main/kotlin/org/komapper/core/dsl/operator/ArithmeticOperators.kt:19-95 | x op y renders "(x op y)" or "(mod(x, y))"; binds x's values then y's |
| ArithmeticOperators.RemValueWithoutModulo | komapper-core/src/main/kotlin/org/komapper/core/dsl/operator/ArithmeticOperators.kt:82-86 | x rem v without a modulo operator renders "(mod(x, ?))" with exactly one bound value more than x, namely v |

## Left out

- SQL execution, JDBC/R2DBC drivers, and `Statement.toSql`. Shapes.SqlText is a text view with `?` for every bound value. It is not the driver's placeholder syntax or the logged form.
- The alias manager is a map from tables to aliases. Its scoping rules (a child manager chained to its parent) are not modelled. Neither are the select and set-operation statement builders: they are function parameters of the environment, and the model records only which one is called, with which aliases and which projection predicate.
- Canonical table and column names, quoting (`enquote`), value formatting, the dialect's `escape` function, its random function and its substring function name are dialect or metamodel parameters.
- Value types (`String::class`, interior classes) are not modelled. A bound value is a datum plus its masking flag. Masking is taken from the property the expression is built on, and is false for other leaves.
- The error messages of the original's exceptions are not modelled. Only the error kind is kept.
- Builder methods (all of them except InSubQuery2): after a failed visit the buffer is left unspecified, because the original aborts the whole build at that point.
- `StatementBuffer.toString` is not modelled; it only renders `toSql`.
- Buffers.StatementBuffer.ToStatement: the statement is returned as a value, a copy of the parts. The original hands its own mutable list to `Statement`, so a later append to the buffer could show through the statement; `Statement` is not part of this model, and no visitor uses a buffer after taking its statement.
- Buffers.StatementBuffer.CutBack: the text is cut by UTF-16 code units in the original and by Dafny characters here.
- Builder.BuilderSupport.Like: the StringBuilder capacity hint in the escape helper is not modelled, because it has no effect on the result.
- Kotlin's `isBlank` is modelled with a fixed list of whitespace characters (the ASCII controls and Unicode space separators), so it is not an exact copy of `Char.isWhitespace`.
