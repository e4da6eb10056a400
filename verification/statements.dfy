/**
 * The compiled form of a SQL statement: an ordered list of parts, each either a
 * fragment of SQL text or a bound value (a placeholder in the driver's syntax).
 */
module Statements {
  import opened Wrappers

  /** The runtime value handed to the driver; its concrete Kotlin type is not modelled. */
  datatype Datum = Str(s: string) | Int(i: int) | Null | Opaque(tag: nat)

  /** A bound value and whether it must be masked in logs. */
  datatype Value = Value(datum: Datum, masking: bool)

  datatype StatementPart = Text(text: string) | ValuePart(value: Value)

  type Parts = seq<StatementPart>

  datatype Statement = Statement(parts: Parts)

  /** The canonical statement without parts. */
  const EmptyStatement: Statement := Statement([])

  /** The values of the bound parts, in the order their placeholders appear. */
  function BoundValues(parts: Parts): (values: seq<Value>)
    ensures |values| <= |parts|
  {
    if parts == [] then []
    else
      var last := parts[|parts| - 1];
      BoundValues(parts[..|parts| - 1]) + (if last.ValuePart? then [last.value] else [])
  }

  /** The number of characters held by the text parts. */
  function TextLength(parts: Parts): nat {
    if parts == [] then 0
    else
      var last := parts[|parts| - 1];
      TextLength(parts[..|parts| - 1]) + (if last.Text? then |last.text| else 0)
  }

  lemma {:induction false} BoundValuesConcat(a: Parts, b: Parts)
    ensures BoundValues(a + b) == BoundValues(a) + BoundValues(b)
    decreases |b|
  {
    if b == [] {
      assert a + b == a;
    } else {
      var b' := b[..|b| - 1];
      assert (a + b)[..|a + b| - 1] == a + b';
      BoundValuesConcat(a, b');
    }
  }

  lemma {:induction false} TextLengthConcat(a: Parts, b: Parts)
    ensures TextLength(a + b) == TextLength(a) + TextLength(b)
    decreases |b|
  {
    if b == [] {
      assert a + b == a;
    } else {
      var b' := b[..|b| - 1];
      assert (a + b)[..|a + b| - 1] == a + b';
      TextLengthConcat(a, b');
    }
  }

  /** Why a cut-back was refused: no part at all, a bound value or too short a text last, or a negative count. */
  datatype CutBackError = NoSuchElement | CannotCutBack | NegativeCount

  /**
   * The parts left by removing `n` trailing characters from the last part:
   * a text that becomes empty is dropped, and every earlier part is kept.
   */
  function CutBackParts(parts: Parts, n: int): (r: Result<Parts, CutBackError>)
    ensures r.Ok? <==>
      |parts| > 0 && parts[|parts| - 1].Text? && 0 <= n <= |parts[|parts| - 1].text|
    ensures parts == [] ==> r == Err(NoSuchElement)
    ensures |parts| > 0 && (parts[|parts| - 1].ValuePart? || |parts[|parts| - 1].text| < n) ==>
      r == Err(CannotCutBack)
    ensures r.Ok? ==>
      && |parts| - 1 <= |r.value| <= |parts|
      && r.value[..|parts| - 1] == parts[..|parts| - 1]
      && (|r.value| == |parts| ==> r.value[|parts| - 1] == Text(parts[|parts| - 1].text[..|parts[|parts| - 1].text| - n]))
    ensures r.Ok? ==> (|r.value| == |parts| - 1 <==> |parts[|parts| - 1].text| == n)
    ensures |parts| > 0 && parts[|parts| - 1].Text? && n <= |parts[|parts| - 1].text| && n < 0 ==>
      r == Err(NegativeCount)
  {
    if parts == [] then Err(NoSuchElement)
    else
      var last := parts[|parts| - 1];
      var rest := parts[..|parts| - 1];
      if last.ValuePart? || |last.text| < n then Err(CannotCutBack)
      else if n < 0 then Err(NegativeCount)
      else
        var newLast := last.text[..|last.text| - n];
        Ok(if |newLast| > 0 then rest + [Text(newLast)] else rest)
  }

  /** Cutting back exactly the text just appended restores the earlier parts. */
  lemma CutBackAfterAppend(parts: Parts, s: string)
    ensures CutBackParts(parts + [Text(s)], |s|) == Ok(parts)
  {
    assert (parts + [Text(s)])[..|parts|] == parts;
  }

  /** A successful cut-back removes exactly `n` characters of text and never a bound value. */
  lemma CutBackRemovesText(parts: Parts, n: int)
    requires CutBackParts(parts, n).Ok?
    ensures TextLength(CutBackParts(parts, n).value) == TextLength(parts) - n
    ensures BoundValues(CutBackParts(parts, n).value) == BoundValues(parts)
  {
    var last := parts[|parts| - 1];
    var rest := parts[..|parts| - 1];
    var newLast := last.text[..|last.text| - n];
    assert parts == rest + [last];
    TextLengthConcat(rest, [last]);
    BoundValuesConcat(rest, [last]);
    assert TextLength([last]) == |last.text| by {
      assert [last][..0] == [];
    }
    assert BoundValues([last]) == [] by {
      assert [last][..0] == [];
    }
    if |newLast| > 0 {
      TextLengthConcat(rest, [Text(newLast)]);
      BoundValuesConcat(rest, [Text(newLast)]);
      assert [Text(newLast)][..0] == [];
    }
  }
}
