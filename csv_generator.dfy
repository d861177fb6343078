/**
 * gate.termraider.output.CsvGenerator: exports a termbank as CSV, the
 * header rows first, then one row per term in descending default-score
 * order, stopping at the first term scoring below the threshold.
 */
module CsvGenerator {
  import opened Wrappers
  import opened TermIdentity
  import opened Ranking
  import opened Csv
  import opened Termbank

  /** The rows `writeCSVTermData` writes for `terms`, in order. */
  function TermRows(bank: TermBank, terms: seq<Term>, numText: real -> string): (rows: seq<seq<string>>)
    requires bank.WellFormed()
    ensures |rows| == |terms|
  {
    if terms == [] then []
    else TermRows(bank, terms[..|terms| - 1], numText) + [bank.TermRow(terms[|terms| - 1], numText)]
  }

  lemma {:induction false} TermRowsAt(bank: TermBank, terms: seq<Term>, numText: real -> string)
    requires bank.WellFormed()
    ensures |TermRows(bank, terms, numText)| == |terms|
    ensures forall i :: 0 <= i < |terms| ==> TermRows(bank, terms, numText)[i] == bank.TermRow(terms[i], numText)
  {
    if terms != [] {
      TermRowsAt(bank, terms[..|terms| - 1], numText);
    }
  }

  /**
   * `generateAndSaveCsv(bank, threshold, outputFile)`. `fault` says whether
   * opening or closing the file throws; `rows` is what reached the writer,
   * `exported` the terms written, in order.
   */
  method GenerateAndSaveCsv(bank: TermBank, threshold: real, fault: IoFault, numText: real -> string)
    returns (outcome: Outcome<GateException>, rows: seq<seq<string>>, written: nat, ghost exported: seq<Term>)
    requires bank.Valid()
    modifies bank`termsByDescendingScore, bank`descendingScoresDone
    ensures bank.Valid()
    ensures outcome == (if fault == NoFault then Pass else Fail(GateException(fault)))
    ensures fault == OpenFails ==> rows == [] && written == 0 && exported == [] && unchanged(bank)
    ensures fault != OpenFails ==>
      bank.descendingScoresDone && RankedKeys(bank.termsByDescendingScore, bank.DefaultScores())
    ensures fault != OpenFails && old(bank.descendingScoresDone) ==>
      bank.termsByDescendingScore == old(bank.termsByDescendingScore)
    ensures fault != OpenFails ==>
      exported == ScoredPrefix(bank.termsByDescendingScore, bank.DefaultScores(), threshold)
    ensures fault != OpenFails ==>
      rows == [HeaderRow(bank.scoreTypes, false), SubHeaderRow(bank.documentCount)] + TermRows(bank, exported, numText)
    ensures fault != OpenFails ==> written == |exported| && |rows| == 2 + written
    ensures fault != OpenFails ==> written <= |bank.termsByDescendingScore|
    ensures fault != OpenFails ==>
      forall t :: t in exported <==> t in bank.Terms() && bank.DefaultScores()[t] >= threshold
  {
    if fault == OpenFails {
      return Fail(GateException(fault)), [], 0, [];
    }
    var w := new CsvWriter();
    var sortedTerms := bank.GetTermsByDescendingScore();
    var scores := bank.DefaultScores();
    written := 0;
    bank.WriteCsvHeader(w, false);
    ghost var header := w.rows;
    assert header == [HeaderRow(bank.scoreTypes, false), SubHeaderRow(bank.documentCount)];
    var i := 0;
    while i < |sortedTerms|
      modifies w
      invariant bank.descendingScoresDone && bank.termsByDescendingScore == sortedTerms
      invariant 0 <= i <= |sortedTerms| && written == i
      invariant forall k :: 0 <= k < i ==> scores[sortedTerms[k]] >= threshold
      invariant w.rows == header + TermRows(bank, sortedTerms[..i], numText)
    {
      var score := scores[sortedTerms[i]];
      if score >= threshold {
        bank.WriteCsvTermData(w, sortedTerms[i], numText);
        written := written + 1;
        assert sortedTerms[..i + 1][..i] == sortedTerms[..i];
        assert TermRows(bank, sortedTerms[..i + 1], numText)
          == TermRows(bank, sortedTerms[..i], numText) + [bank.TermRow(sortedTerms[i], numText)];
      } else {
        break;
      }
      i := i + 1;
    }
    exported := sortedTerms[..i];
    ThresholdLoopExit(sortedTerms, scores, threshold, i);
    assert w.rows == header + TermRows(bank, exported, numText);
    rows := w.rows;
    outcome := if fault == NoFault then Pass else Fail(GateException(fault));
  }
}
