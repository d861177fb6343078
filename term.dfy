/**
 * gate.termraider.util.Term: an immutable (term string, language code, type)
 * triple with Java equality, hash code, natural ordering and the looser
 * `closeMatch` used against document-frequency tables.
 */
module TermIdentity {
  import opened Wrappers
  import opened JavaBasics

  /** A constructed Term; the language code is never null (see NewTerm). */
  datatype Term = Term(termString: string, languageCode: string, termType: string)

  /** The public constructor followed by `setup`: a null language code becomes "". */
  function NewTerm(termString: string, languageCode: JString, termType: string): (t: Term)
    ensures t.termString == termString && t.termType == termType
    ensures languageCode.JNull? ==> t.languageCode == ""
    ensures languageCode.JStr? ==> t.languageCode == languageCode.s
  {
    Term(termString, if languageCode.JNull? then "" else languageCode.s, termType)
  }

  /** `equals(Object)`: `other` is None when it is null or not a Term. */
  function Equals(t: Term, other: Option<Term>): bool
  {
    other.Some? &&
    t.termString == other.value.termString &&
    t.languageCode == other.value.languageCode &&
    t.termType == other.value.termType
  }

  lemma EqualsIffSameFields(t: Term, u: Term)
    ensures Equals(t, Some(u)) <==> t == u
    ensures !Equals(t, None)
  {
  }

  /**
   * The hash cached by `setup`: the int sum of the three strings' hashes.
   * Java's String.hashCode is supplied as `strHash`.
   */
  function HashCode(t: Term, strHash: string -> int32): int32
  {
    Wrap32(strHash(t.termString) as int + strHash(t.languageCode) as int + strHash(t.termType) as int)
  }

  lemma EqualTermsEqualHashes(t: Term, u: Term, strHash: string -> int32)
    requires Equals(t, Some(u))
    ensures HashCode(t, strHash) == HashCode(u, strHash)
  {
  }

  /** `closeMatch`: string and type must agree; a blank language code matches any. */
  function CloseMatch(t: Term, other: Term): bool
  {
    if t.termString != other.termString then false
    else if t.termType != other.termType then false
    else if t.languageCode == "" || other.languageCode == "" then true
    else t.languageCode == other.languageCode
  }

  lemma CloseMatchCharacterization(t: Term, u: Term)
    ensures CloseMatch(t, u) <==>
      t.termString == u.termString && t.termType == u.termType &&
      (t.languageCode == "" || u.languageCode == "" || t.languageCode == u.languageCode)
  {
  }

  lemma CloseMatchSymmetric(t: Term, u: Term)
    ensures CloseMatch(t, u) == CloseMatch(u, t)
  {
  }

  lemma EqualsImpliesCloseMatch(t: Term, u: Term)
    requires Equals(t, Some(u))
    ensures CloseMatch(t, u)
  {
  }

  /** `compareTo`: lexicographic on (termString, languageCode, type). */
  function CompareTo(t: Term, other: Term): int
  {
    var c1 := StringCompare(t.termString, other.termString);
    if c1 != 0 then c1
    else
      var c2 := StringCompare(t.languageCode, other.languageCode);
      if c2 != 0 then c2
      else StringCompare(t.termType, other.termType)
  }

  lemma CompareToZeroIffEqual(t: Term, u: Term)
    ensures CompareTo(t, u) == 0 <==> Equals(t, Some(u))
  {
    StringCompareZeroIffEqual(t.termString, u.termString);
    StringCompareZeroIffEqual(t.languageCode, u.languageCode);
    StringCompareZeroIffEqual(t.termType, u.termType);
  }

  lemma CompareToAntisymmetric(t: Term, u: Term)
    ensures CompareTo(t, u) == -CompareTo(u, t)
  {
    StringCompareAntisymmetric(t.termString, u.termString);
    StringCompareAntisymmetric(t.languageCode, u.languageCode);
    StringCompareAntisymmetric(t.termType, u.termType);
  }

  lemma CompareToTransitive(t: Term, u: Term, v: Term)
    requires CompareTo(t, u) < 0 && CompareTo(u, v) < 0
    ensures CompareTo(t, v) < 0
  {
    StringCompareZeroIffEqual(t.termString, u.termString);
    StringCompareZeroIffEqual(u.termString, v.termString);
    StringCompareZeroIffEqual(t.languageCode, u.languageCode);
    StringCompareZeroIffEqual(u.languageCode, v.languageCode);
    if t.termString != u.termString && u.termString != v.termString {
      StringCompareTransitive(t.termString, u.termString, v.termString);
    } else if t.termString == u.termString && u.termString == v.termString {
      if t.languageCode != u.languageCode && u.languageCode != v.languageCode {
        StringCompareTransitive(t.languageCode, u.languageCode, v.languageCode);
      } else if t.languageCode == u.languageCode && u.languageCode == v.languageCode {
        StringCompareTransitive(t.termType, u.termType, v.termType);
      }
    }
  }

  /** The `toString` text cached by `setup`. */
  function ToString(t: Term): string
  {
    if t.languageCode == "" then t.termString + " (" + t.termType + ")"
    else t.termString + " (" + t.languageCode + "," + t.termType + ")"
  }

  /** The text starts with the term string and ends with the type in parentheses. */
  lemma ToStringShape(t: Term)
    ensures var r := ToString(t);
      |r| >= |t.termString| + |t.termType| + 3 &&
      r[..|t.termString|] == t.termString &&
      r[|r| - |t.termType| - 1..] == t.termType + ")" &&
      (t.languageCode == "" <==> |r| == |t.termString| + |t.termType| + 3)
  {
  }
}
