/**
 * gate.termraider.bank.AbstractTermbank: the store of per-term scores (one
 * map per score type) and per-term document sets, its lazily computed
 * ranking and score range, and the CSV rows it contributes to an export.
 *
 * The abstract hooks that fill the store (initializeScoreTypes, resetScores,
 * processDocument, calculateScores) are not modelled: their results are the
 * inputs of Init.
 */
module Termbank {
  import opened Wrappers
  import opened JavaBasics
  import opened TermIdentity
  import opened DocumentIds
  import opened Ranking
  import opened Csv

  /** A score dimension; `name` is its `toString`, used as a column header. */
  datatype ScoreType = ScoreType(name: string)

  datatype InitError = NoCorporaGiven | NoScoreTypesFound

  /**
   * The checks of `init`: `prepare` rejects a null or empty corpus list, then
   * the score types registered by the subclass must not be empty.
   * `corpora` is the number of corpora, None when the list is null.
   */
  function CheckInit(corpora: Option<nat>, scoreTypeCount: nat): (r: Option<InitError>)
    ensures r.None? <==> corpora.Some? && corpora.value > 0 && scoreTypeCount > 0
    ensures (corpora.None? || corpora.value == 0) ==> r == Some(NoCorporaGiven)
    ensures corpora.Some? && corpora.value > 0 && scoreTypeCount == 0 ==> r == Some(NoScoreTypesFound)
  {
    if corpora.None? || corpora.value == 0 then Some(NoCorporaGiven)
    else if scoreTypeCount == 0 then Some(NoScoreTypesFound)
    else None
  }

  /** The placeholder range (0, 1) for no scores, else the least and greatest score. */
  ghost predicate IsMinMax(lo: real, hi: real, scores: map<Term, real>)
  {
    if scores == map[] then lo == 0.0 && hi == 1.0
    else
      lo in scores.Values && hi in scores.Values &&
      forall t :: t in scores ==> lo <= scores[t] <= hi
  }

  /** Header cells for the score types, in list order. */
  function ScoreTypeNames(scoreTypes: seq<ScoreType>): seq<string>
  {
    if scoreTypes == [] then []
    else ScoreTypeNames(scoreTypes[..|scoreTypes| - 1]) + [scoreTypes[|scoreTypes| - 1].name]
  }

  lemma {:induction false} ScoreTypeNamesAt(scoreTypes: seq<ScoreType>)
    ensures |ScoreTypeNames(scoreTypes)| == |scoreTypes|
    ensures forall i :: 0 <= i < |scoreTypes| ==> ScoreTypeNames(scoreTypes)[i] == scoreTypes[i].name
  {
    if scoreTypes != [] {
      ScoreTypeNamesAt(scoreTypes[..|scoreTypes| - 1]);
    }
  }

  /** The header row of `writeCSVHeader`. */
  function HeaderRow(scoreTypes: seq<ScoreType>, documentDetails: bool): seq<string>
  {
    ["Term", "Lang", "Type"] + ScoreTypeNames(scoreTypes) +
    (if documentDetails then ["documentID", "termFrequency"] else [])
  }

  lemma HeaderRowShape(scoreTypes: seq<ScoreType>, documentDetails: bool)
    ensures var h := HeaderRow(scoreTypes, documentDetails);
      |h| == 3 + |scoreTypes| + (if documentDetails then 2 else 0) &&
      h[..3] == ["Term", "Lang", "Type"] &&
      (forall i :: 0 <= i < |scoreTypes| ==> h[3 + i] == scoreTypes[i].name) &&
      (documentDetails ==> h[|h| - 2..] == ["documentID", "termFrequency"])
  {
    ScoreTypeNamesAt(scoreTypes);
  }

  /** The fixed five-cell row of `writeCSVSubHeader`. */
  function SubHeaderRow(documentCount: int32): seq<string>
  {
    ["", "_TOTAL_DOCS_", "", "", DecimalString(documentCount as int)]
  }

  /** The three identity cells of a term row. */
  function TermCells(t: Term): seq<string>
  {
    [t.termString, t.languageCode, t.termType]
  }

  /** The identifier cell: a null identifier is written as an empty field. */
  function IdentifierCell(id: JString): string
  {
    if id.JNull? then "" else id.s
  }

  class TermBank {
    const scoreTypes: seq<ScoreType>
    const scores: map<ScoreType, map<Term, real>>
    const termDocuments: map<Term, set<DocumentIdentifier>>
    /** `getDocumentCount()` of the enclosing bank. */
    const documentCount: int32

    var termsByDescendingScore: seq<Term>
    var descendingScoresDone: bool
    var minDefaultScore: Option<real>
    var maxDefaultScore: Option<real>

    /** What `init` establishes: some score type, and a score map for each. */
    predicate WellFormed()
    {
      |scoreTypes| > 0 &&
      forall i :: 0 <= i < |scoreTypes| ==> scoreTypes[i] in scores
    }

    /** The caches, once filled, agree with the default scores. */
    ghost predicate Valid()
      reads this
    {
      WellFormed() &&
      (descendingScoresDone ==> RankedKeys(termsByDescendingScore, DefaultScores())) &&
      (minDefaultScore.Some? <==> maxDefaultScore.Some?) &&
      (minDefaultScore.Some? ==> IsMinMax(minDefaultScore.value, maxDefaultScore.value, DefaultScores()))
    }

    constructor (scoreTypes: seq<ScoreType>, scores: map<ScoreType, map<Term, real>>,
                 termDocuments: map<Term, set<DocumentIdentifier>>, documentCount: int32)
      requires |scoreTypes| > 0
      requires forall i :: 0 <= i < |scoreTypes| ==> scoreTypes[i] in scores
      ensures Valid()
      ensures this.scoreTypes == scoreTypes && this.scores == scores
      ensures this.termDocuments == termDocuments && this.documentCount == documentCount
      ensures !descendingScoresDone && minDefaultScore.None? && maxDefaultScore.None?
    {
      this.scoreTypes := scoreTypes;
      this.scores := scores;
      this.termDocuments := termDocuments;
      this.documentCount := documentCount;
      termsByDescendingScore := [];
      descendingScoresDone := false;
      minDefaultScore := None;
      maxDefaultScore := None;
    }

    /** `getDefaultScoreType`: the first registered score type, which has a score map. */
    function DefaultScoreType(): (r: ScoreType)
      requires WellFormed()
      ensures r in scores
      ensures |scoreTypes| > 0 && r == scoreTypes[0]
    {
      scoreTypes[0]
    }

    /** `getDefaultScores`: the score map of the default score type, as `getScore` reads it. */
    function DefaultScores(): (r: map<Term, real>)
      requires WellFormed()
      ensures forall t :: t in r <==> t in scores[scoreTypes[0]]
      ensures forall t :: t in r ==> r[t] == GetScore(scoreTypes[0], t)
    {
      scores[DefaultScoreType()]
    }

    /** `getTerms`: the terms scored under the default score type. */
    function Terms(): (r: set<Term>)
      requires WellFormed()
      ensures forall t :: t in r <==> t in scores[scoreTypes[0]]
    {
      DefaultScores().Keys
    }

    /** `getScore`: the stored score, or 0 for a term without one. */
    function GetScore(st: ScoreType, t: Term): (r: real)
      requires st in scores
      ensures t in scores[st] ==> r == scores[st][t]
      ensures t !in scores[st] ==> r == 0.0
    {
      var ss := scores[st];
      if t in ss then ss[t] else 0.0
    }

    /** `getDocumentsForTerm`: the stored set, or an empty one for an unknown term. */
    function GetDocumentsForTerm(t: Term): (r: set<DocumentIdentifier>)
      ensures t in termDocuments ==> r == termDocuments[t]
      ensures t !in termDocuments ==> r == {}
    {
      if t in termDocuments then termDocuments[t] else {}
    }

    /**
     * `getScoreMap`: each score type mapped to the term's stored score, or
     * to Java null (None) when it has none under that type.
     */
    method GetScoreMap(t: Term) returns (result: map<ScoreType, Option<real>>)
      requires WellFormed()
      ensures forall st :: st in result <==> st in scoreTypes
      ensures forall st :: st in result ==>
        (st in scores && result[st] == (if t in scores[st] then Some(scores[st][t]) else None))
    {
      result := map[];
      for i := 0 to |scoreTypes|
        invariant forall st :: st in result <==> st in scoreTypes[..i]
        invariant forall st :: st in result ==>
          (st in scores && result[st] == (if t in scores[st] then Some(scores[st][t]) else None))
      {
        var st := scoreTypes[i];
        assert scoreTypes[..i + 1] == scoreTypes[..i] + [st];
        result := result[st := if t in scores[st] then Some(scores[st][t]) else None];
      }
      assert scoreTypes[..|scoreTypes|] == scoreTypes;
    }

    /**
     * `getTermsByDescendingScore`: the first call ranks the default-scored
     * terms and caches the list; later calls return the cached list.
     */
    method GetTermsByDescendingScore() returns (r: seq<Term>)
      requires Valid()
      modifies this`termsByDescendingScore, this`descendingScoresDone
      ensures Valid() && descendingScoresDone && r == termsByDescendingScore
      ensures RankedKeys(r, DefaultScores())
      ensures old(descendingScoresDone) ==> r == old(termsByDescendingScore)
    {
      if !descendingScoresDone {
        var a := SortedKeys(DefaultScores());
        termsByDescendingScore := a[..];
        descendingScoresDone := true;
      }
      r := termsByDescendingScore;
    }

    /** `findMinAndMaxDefaultScores`: fills both cached bounds. */
    method FindMinAndMaxDefaultScores()
      requires WellFormed()
      modifies this`minDefaultScore, this`maxDefaultScore
      ensures minDefaultScore.Some? && maxDefaultScore.Some?
      ensures IsMinMax(minDefaultScore.value, maxDefaultScore.value, DefaultScores())
    {
      var values := DefaultScores();
      var keys := ListOfSet(values.Keys);
      assert forall k :: k in keys <==> k in values by {
        forall k ensures k in keys <==> k in values {
          assert k in keys <==> k in multiset(keys);
        }
      }
      if |keys| == 0 {
        assert values == map[] by {
          forall k ensures k !in values { assert k !in keys; }
        }
        minDefaultScore := Some(0.0);
        maxDefaultScore := Some(1.0);
      } else {
        minDefaultScore := Some(values[keys[0]]);
        maxDefaultScore := Some(values[keys[0]]);
        for i := 0 to |keys|
          invariant minDefaultScore.Some? && maxDefaultScore.Some?
          invariant minDefaultScore.value in values.Values && maxDefaultScore.value in values.Values
          invariant forall k :: 0 <= k < i ==>
            minDefaultScore.value <= values[keys[k]] <= maxDefaultScore.value
        {
          var n := values[keys[i]];
          if n < minDefaultScore.value {
            minDefaultScore := Some(n);
          }
          if n > maxDefaultScore.value {
            maxDefaultScore := Some(n);
          }
        }
        forall t | t in values
          ensures minDefaultScore.value <= values[t] <= maxDefaultScore.value
        {
          var k :| 0 <= k < |keys| && keys[k] == t;
        }
      }
    }

    /** `getMinScore`: computes both bounds on first use, then returns the cached minimum. */
    method GetMinScore() returns (r: real)
      requires Valid()
      modifies this`minDefaultScore, this`maxDefaultScore
      ensures Valid() && minDefaultScore == Some(r)
      ensures IsMinMax(r, maxDefaultScore.value, DefaultScores())
      ensures old(minDefaultScore).Some? ==> r == old(minDefaultScore).value && unchanged(this)
    {
      if minDefaultScore.None? {
        FindMinAndMaxDefaultScores();
      }
      r := minDefaultScore.value;
    }

    /** `getMaxScore`: computes both bounds on first use, then returns the cached maximum. */
    method GetMaxScore() returns (r: real)
      requires Valid()
      modifies this`minDefaultScore, this`maxDefaultScore
      ensures Valid() && maxDefaultScore == Some(r)
      ensures IsMinMax(minDefaultScore.value, r, DefaultScores())
      ensures old(maxDefaultScore).Some? ==> r == old(maxDefaultScore).value && unchanged(this)
    {
      if maxDefaultScore.None? {
        FindMinAndMaxDefaultScores();
      }
      r := maxDefaultScore.value;
    }

    /** One cell per score type, in list order: the term's score as text. */
    function ScoreCells(sts: seq<ScoreType>, t: Term, numText: real -> string): seq<string>
      requires forall i :: 0 <= i < |sts| ==> sts[i] in scores
    {
      if sts == [] then []
      else ScoreCells(sts[..|sts| - 1], t, numText) + [numText(GetScore(sts[|sts| - 1], t))]
    }

    lemma {:induction false} ScoreCellsAt(sts: seq<ScoreType>, t: Term, numText: real -> string)
      requires forall i :: 0 <= i < |sts| ==> sts[i] in scores
      ensures |ScoreCells(sts, t, numText)| == |sts|
      ensures forall i :: 0 <= i < |sts| ==> ScoreCells(sts, t, numText)[i] == numText(GetScore(sts[i], t))
    {
      if sts != [] {
        ScoreCellsAt(sts[..|sts| - 1], t, numText);
      }
    }

    /** The row of `writeCSVTermData`. */
    function TermRow(t: Term, numText: real -> string): seq<string>
      requires WellFormed()
    {
      TermCells(t) + ScoreCells(scoreTypes, t, numText)
    }

    /** A row of `writeCSVTermDocumentData`: the term row, then the document's id and index. */
    function TermDocumentRow(t: Term, d: DocumentIdentifier, numText: real -> string): seq<string>
      requires WellFormed()
    {
      TermRow(t, numText) + [IdentifierCell(d.identifier), DecimalString(d.index as int)]
    }

    function TermDocumentRows(t: Term, docs: seq<DocumentIdentifier>, numText: real -> string): seq<seq<string>>
      requires WellFormed()
    {
      if docs == [] then []
      else TermDocumentRows(t, docs[..|docs| - 1], numText) + [TermDocumentRow(t, docs[|docs| - 1], numText)]
    }

    lemma TermRowShape(t: Term, numText: real -> string)
      requires WellFormed()
      ensures var row := TermRow(t, numText);
        |row| == 3 + |scoreTypes| &&
        row[..3] == [t.termString, t.languageCode, t.termType] &&
        forall i :: 0 <= i < |scoreTypes| ==> row[3 + i] == numText(GetScore(scoreTypes[i], t))
    {
      ScoreCellsAt(scoreTypes, t, numText);
    }

    lemma TermDocumentRowShape(t: Term, d: DocumentIdentifier, numText: real -> string)
      requires WellFormed()
      ensures var row := TermDocumentRow(t, d, numText);
        |row| == 5 + |scoreTypes| &&
        row[..3 + |scoreTypes|] == TermRow(t, numText) &&
        row[|row| - 2] == IdentifierCell(d.identifier) &&
        row[|row| - 1] == DecimalString(d.index as int)
    {
      TermRowShape(t, numText);
    }

    lemma {:induction false} TermDocumentRowsAt(t: Term, docs: seq<DocumentIdentifier>, numText: real -> string)
      requires WellFormed()
      ensures |TermDocumentRows(t, docs, numText)| == |docs|
      ensures forall i :: 0 <= i < |docs| ==> TermDocumentRows(t, docs, numText)[i] == TermDocumentRow(t, docs[i], numText)
    {
      if docs != [] {
        TermDocumentRowsAt(t, docs[..|docs| - 1], numText);
      }
    }

    /** `writeCSVHeader`: the header row, then the sub-header row. */
    method WriteCsvHeader(w: CsvWriter, documentDetails: bool)
      modifies w
      ensures w.rows == old(w.rows) + [HeaderRow(scoreTypes, documentDetails), SubHeaderRow(documentCount)]
    {
      var row := ["Term", "Lang", "Type"];
      for i := 0 to |scoreTypes|
        invariant row == ["Term", "Lang", "Type"] + ScoreTypeNames(scoreTypes[..i])
      {
        assert scoreTypes[..i + 1][..i] == scoreTypes[..i];
        row := row + [scoreTypes[i].name];
      }
      assert scoreTypes[..|scoreTypes|] == scoreTypes;
      if documentDetails {
        row := row + ["documentID", "termFrequency"];
      }
      assert row == HeaderRow(scoreTypes, documentDetails);
      w.WriteNext(row);
      WriteCsvSubHeader(w);
      assert w.rows == old(w.rows) + [row] + [SubHeaderRow(documentCount)];
    }

    /** `writeCSVSubHeader`: five cells, the total document count in the last. */
    method WriteCsvSubHeader(w: CsvWriter)
      modifies w
      ensures w.rows == old(w.rows) + [SubHeaderRow(documentCount)]
    {
      var row := new string[5](_ => "");
      row[1] := "_TOTAL_DOCS_";
      row[4] := DecimalString(documentCount as int);
      assert row[..] == SubHeaderRow(documentCount);
      w.WriteNext(row[..]);
    }

    /** `writeCSVTermData`: one row for the term. */
    method WriteCsvTermData(w: CsvWriter, t: Term, numText: real -> string)
      requires WellFormed()
      modifies w
      ensures w.rows == old(w.rows) + [TermRow(t, numText)]
    {
      var row := [t.termString, t.languageCode, t.termType];
      for i := 0 to |scoreTypes|
        invariant row == TermCells(t) + ScoreCells(scoreTypes[..i], t, numText)
      {
        assert scoreTypes[..i + 1][..i] == scoreTypes[..i];
        row := row + [numText(GetScore(scoreTypes[i], t))];
      }
      assert scoreTypes[..|scoreTypes|] == scoreTypes;
      w.WriteNext(row);
    }

    /**
     * `writeCSVTermDocumentData`: one row per document of the term, in the
     * set's iteration order (returned as `order`). The term must be a key of
     * the document map.
     */
    method WriteCsvTermDocumentData(w: CsvWriter, t: Term, numText: real -> string)
      returns (ghost order: seq<DocumentIdentifier>)
      requires WellFormed()
      requires t in termDocuments
      modifies w
      ensures multiset(order) == multiset(termDocuments[t])
      ensures w.rows == old(w.rows) + TermDocumentRows(t, order, numText)
    {
      var rest := termDocuments[t];
      order := [];
      while rest != {}
        invariant rest <= termDocuments[t]
        invariant multiset(order) + multiset(rest) == multiset(termDocuments[t])
        invariant w.rows == old(w.rows) + TermDocumentRows(t, order, numText)
        decreases |rest|
      {
        var docId :| docId in rest;
        assert multiset(rest) == multiset(rest - {docId}) + multiset{docId};
        var row := [t.termString, t.languageCode, t.termType];
        for i := 0 to |scoreTypes|
          invariant row == TermCells(t) + ScoreCells(scoreTypes[..i], t, numText)
        {
          assert scoreTypes[..i + 1][..i] == scoreTypes[..i];
          row := row + [numText(GetScore(scoreTypes[i], t))];
        }
        assert scoreTypes[..|scoreTypes|] == scoreTypes;
        row := row + [IdentifierCell(docId.identifier), DecimalString(docId.index as int)];
        w.WriteNext(row);
        assert (order + [docId])[..|order|] == order;
        order := order + [docId];
        rest := rest - {docId};
      }
    }
  }

  /**
   * `init`: `prepare`'s corpus check, then the score-type check. The score
   * types, score maps and document sets are what the subclass hooks
   * produce; `resetScores` gives every score type a map.
   */
  method Init(corpora: Option<nat>, scoreTypes: seq<ScoreType>, scores: map<ScoreType, map<Term, real>>,
              termDocuments: map<Term, set<DocumentIdentifier>>, documentCount: int32)
    returns (r: Result<TermBank, InitError>)
    requires forall i :: 0 <= i < |scoreTypes| ==> scoreTypes[i] in scores
    ensures r.Failure? <==> CheckInit(corpora, |scoreTypes|).Some?
    ensures r.Failure? ==> r.error == CheckInit(corpora, |scoreTypes|).value
    ensures r.Success? ==> fresh(r.value) && r.value.Valid()
    ensures r.Success? ==> r.value.scoreTypes == scoreTypes && r.value.scores == scores
    ensures r.Success? ==> r.value.termDocuments == termDocuments && r.value.documentCount == documentCount
    ensures r.Success? ==> !r.value.descendingScoresDone && r.value.minDefaultScore.None?
  {
    var check := CheckInit(corpora, |scoreTypes|);
    if check.Some? {
      return Failure(check.value);
    }
    var bank := new TermBank(scoreTypes, scores, termDocuments, documentCount);
    r := Success(bank);
  }
}
