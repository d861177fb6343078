/**
 * gate.termraider.util.DocumentIdentifier: an immutable (identifier, index)
 * key naming a document by its id string and its position in the corpus.
 */
module DocumentIds {
  import opened Wrappers
  import opened JavaBasics

  /** The identifier string may be null; the index is a Java int. */
  datatype DocumentIdentifier = DocumentIdentifier(identifier: JString, index: int32)

  /** The constructor: the getters return exactly its arguments. */
  function NewDocumentIdentifier(identifier: JString, index: int32): (d: DocumentIdentifier)
    ensures d.identifier == identifier && d.index == index
  {
    DocumentIdentifier(identifier, index)
  }

  /** `toString`: `String.format("%s [%d]", identifier, index)`. */
  function ToString(d: DocumentIdentifier): string
  {
    JStringText(d.identifier) + " [" + DecimalString(d.index as int) + "]"
  }

  /** `hashCode`: 31 * (31 * 1 + hash(identifier)) + index, in int arithmetic. */
  function HashCode(d: DocumentIdentifier, strHash: string -> int32): int32
  {
    var h := if d.identifier.JNull? then 0 else strHash(d.identifier.s);
    var result := Wrap32(31 * 1 + h as int);
    Wrap32(31 * result as int + d.index as int)
  }

  /**
   * `equals(Object)`: `other` is None when it is null or of another class.
   * Identifiers compare null-safely, then the indices.
   */
  function Equals(d: DocumentIdentifier, other: Option<DocumentIdentifier>): bool
  {
    if other.None? then false
    else
      var o := other.value;
      if d.identifier.JNull? && o.identifier.JStr? then false
      else if d.identifier.JStr? && (o.identifier.JNull? || d.identifier.s != o.identifier.s) then false
      else if d.index != o.index then false
      else true
  }

  lemma EqualsIffSameFields(d: DocumentIdentifier, e: DocumentIdentifier)
    ensures Equals(d, Some(e)) <==> d.identifier == e.identifier && d.index == e.index
  {
  }

  lemma EqualsReflexiveAndNullFalse(d: DocumentIdentifier)
    ensures Equals(d, Some(d))
    ensures !Equals(d, None)
  {
  }

  lemma DifferentIndexNotEqual(d: DocumentIdentifier, e: DocumentIdentifier)
    requires d.index != e.index
    ensures !Equals(d, Some(e)) && !Equals(e, Some(d))
  {
  }

  lemma EqualIdentifiersEqualHashes(d: DocumentIdentifier, e: DocumentIdentifier, strHash: string -> int32)
    requires Equals(d, Some(e))
    ensures HashCode(d, strHash) == HashCode(e, strHash)
  {
  }

  /** The rendering is the identifier, " [", the decimal index and "]". */
  lemma ToStringShape(d: DocumentIdentifier)
    ensures var r := ToString(d); var n := DecimalString(d.index as int);
      var k := |JStringText(d.identifier)|;
      |r| == k + |n| + 3 &&
      r[..k] == JStringText(d.identifier) &&
      r[k..k + 2] == " [" &&
      r[k + 2..|r| - 1] == n &&
      r[|r| - 1..] == "]"
  {
  }
}
