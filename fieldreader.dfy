/**
 * How the preview reads the inputs of a block: it asks the block for the
 * element whose id is the field name followed by the block's DISPLAY
 * POSITION (1-based rank among the live blocks), not its creation number.
 */
module FieldReader {
  import opened Wrappers
  import opened Digits
  import opened Text
  import opened Escape
  import opened Registry

  /** The value of the block's own input with this element id, if the block has one. */
  function Query(b: Block, elementId: string): Option<string>
  {
    if elementId in b.inputs then Some(b.inputs[elementId]) else None
  }

  /** What the preview shows for field `name` of the block it enumerates at `position`: escaped, trimmed, `''` when missing. */
  function ReadField(b: Block, name: string, position: nat): string
  {
    EscapeHtml(TrimValue(Query(b, ElementId(name, position))))
  }

  /** The value stored in field `name` of a block, trimmed. */
  function Stored(b: Block, name: string): string
  {
    TrimValue(Query(b, ElementId(name, b.id)))
  }

  /** The lookup by position finds the block's input exactly when the position equals the block's creation number. */
  lemma QueryByPosition(k: Kind, b: Block, name: string, position: nat)
    requires WellFormed(k, b) && name in FieldNames(k)
    ensures Query(b, ElementId(name, position)) == if position == b.id then Query(b, ElementId(name, b.id)) else None
  {
    FieldNamesArePrefixes(k);
    if ElementId(name, position) in b.inputs {
      var other :| other in FieldNames(k) && ElementId(name, position) == ElementId(other, b.id);
      ElementIdInjective(name, position, other, b.id);
    }
  }

  /**
   * A field reads as its own escaped, trimmed value when the block sits at
   * the position equal to its number, and as `''` otherwise.
   */
  lemma ReadFieldByPosition(k: Kind, b: Block, name: string, position: nat)
    requires WellFormed(k, b) && name in FieldNames(k)
    ensures ReadField(b, name, position) == if position == b.id then EscapeHtml(Stored(b, name)) else []
  {
    QueryByPosition(k, b, name, position);
  }

  /** A field reads as non-empty exactly when it sits at its own number and its stored value is not blank. */
  lemma ReadFieldNonEmpty(k: Kind, b: Block, name: string, position: nat)
    requires WellFormed(k, b) && name in FieldNames(k)
    ensures ReadField(b, name, position) != [] <==> position == b.id && Stored(b, name) != []
  {
    ReadFieldByPosition(k, b, name, position);
    EscapeHtmlEmpty(Stored(b, name));
  }

  /** What is read is always safe to embed. */
  lemma ReadFieldSafe(b: Block, name: string, position: nat)
    ensures Safe(ReadField(b, name, position))
  {
    EscapeHtmlSafe(TrimValue(Query(b, ElementId(name, position))));
  }
}
