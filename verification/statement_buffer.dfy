/** The mutable buffer a builder appends SQL text and bound values to. */
module Buffers {
  import opened Wrappers
  import opened Statements

  class StatementBuffer {
    /** The parts appended so far, oldest first. */
    var parts: Parts

    constructor ()
      ensures parts == []
    {
      parts := [];
    }

    /** Adds one text part at the end. */
    method AppendText(text: string)
      modifies this
      ensures parts == old(parts) + [Text(text)]
    {
      parts := parts + [Text(text)];
    }

    /** Splices in every part of `statement`, in order. */
    method AppendStatement(statement: Statement)
      modifies this
      ensures parts == old(parts) + statement.parts
    {
      parts := parts + statement.parts;
    }

    /** Adds one bound value at the end. */
    method Bind(value: Value)
      modifies this
      ensures parts == old(parts) + [ValuePart(value)]
    {
      parts := parts + [ValuePart(value)];
    }

    /**
     * Removes `length` trailing characters from the last part. The last part is taken
     * off first, so on a refused cut-back (a bound value last, too short a text, a
     * negative count) the buffer has lost its last part; an empty buffer is left as is.
     */
    method CutBack(length: int) returns (r: Outcome<CutBackError>)
      modifies this
      ensures r.Pass? <==> CutBackParts(old(parts), length).Ok?
      ensures r.Pass? ==> parts == CutBackParts(old(parts), length).value
      ensures r.Fail? ==> r.error == CutBackParts(old(parts), length).error
      ensures r.Fail? && old(parts) != [] ==> parts == old(parts)[..|old(parts)| - 1]
      ensures r.Fail? && old(parts) == [] ==> parts == []
    {
      if parts == [] {
        return Fail(NoSuchElement);
      }
      var last := parts[|parts| - 1];
      parts := parts[..|parts| - 1];
      if last.ValuePart? || |last.text| < length {
        return Fail(CannotCutBack);
      }
      if length < 0 {
        return Fail(NegativeCount);
      }
      var newLast := last.text[..|last.text| - length];
      if |newLast| > 0 {
        parts := parts + [Text(newLast)];
      }
      return Pass;
    }

    /** The statement of the parts, as a value; no parts yields the canonical empty statement. */
    method ToStatement() returns (statement: Statement)
      ensures statement.parts == parts
      ensures parts == [] ==> statement == EmptyStatement
    {
      if parts == [] {
        return EmptyStatement;
      }
      return Statement(parts);
    }
  }

  /** Appending a text and cutting back its length leaves the buffer as it was. */
  method AppendThenCutBack(buf: StatementBuffer, s: string)
    modifies buf
    ensures buf.parts == old(buf.parts)
  {
    buf.AppendText(s);
    CutBackAfterAppend(old(buf.parts), s);
    var r := buf.CutBack(|s|);
  }
}
