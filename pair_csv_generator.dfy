/**
 * gate.termraider.output.PairCsvGenerator: exports a pair bank as CSV, a
 * nine-cell header and then one nine-cell row per term pair in descending
 * score order, stopping at the first pair scoring below the threshold.
 *
 * The pair bank itself is not part of this model: its scores, its two
 * counts per pair and its score property name are inputs.
 */
module PairCsvGenerator {
  import opened Wrappers
  import opened JavaBasics
  import opened TermIdentity
  import opened Ranking
  import opened Csv
  import opened Termbank

  /** A pair of terms as the exporter reads it, through `getTerm0`/`getTerm1`. */
  datatype UnorderedTermPair = UnorderedTermPair(term0: Term, term1: Term)

  /** What the exporter asks of an `AbstractPairbank`. */
  datatype PairBank = PairBank(
    scores: map<UnorderedTermPair, real>,
    documentCount: UnorderedTermPair -> int32,
    pairCount: UnorderedTermPair -> int32,
    scoreProperty: string)

  /** The row `writeHeader` writes. */
  function PairHeaderRow(scoreProperty: string): seq<string>
  {
    ["Term", "Lang", "Type", "Term", "Lang", "Type", scoreProperty, "DocFrequency", "Frequency"]
  }

  /** The row `writePairData` writes. */
  function PairRow(t0: Term, t1: Term, score: real, documents: int32, frequency: int32,
                   numText: real -> string): seq<string>
  {
    TermCells(t0) + TermCells(t1) +
    [numText(score), DecimalString(documents as int), DecimalString(frequency as int)]
  }

  lemma PairRowShape(t0: Term, t1: Term, score: real, documents: int32, frequency: int32,
                     numText: real -> string)
    ensures var row := PairRow(t0, t1, score, documents, frequency, numText);
      |row| == 9 &&
      row[0] == t0.termString && row[1] == t0.languageCode && row[2] == t0.termType &&
      row[3] == t1.termString && row[4] == t1.languageCode && row[5] == t1.termType &&
      row[6] == numText(score) &&
      row[7] == DecimalString(documents as int) && row[8] == DecimalString(frequency as int)
  {
  }

  /** The rows written for `pairs`, in order. */
  function PairRows(bank: PairBank, pairs: seq<UnorderedTermPair>, numText: real -> string): (rows: seq<seq<string>>)
    requires AllScored(pairs, bank.scores)
    ensures |rows| == |pairs|
  {
    if pairs == [] then []
    else
      var p := pairs[|pairs| - 1];
      PairRows(bank, pairs[..|pairs| - 1], numText) +
      [PairRow(p.term0, p.term1, bank.scores[p], bank.documentCount(p), bank.pairCount(p), numText)]
  }

  lemma {:induction false} PairRowsAt(bank: PairBank, pairs: seq<UnorderedTermPair>, numText: real -> string)
    requires AllScored(pairs, bank.scores)
    ensures |PairRows(bank, pairs, numText)| == |pairs|
    ensures forall i :: 0 <= i < |pairs| ==>
      PairRows(bank, pairs, numText)[i] ==
      PairRow(pairs[i].term0, pairs[i].term1, bank.scores[pairs[i]],
              bank.documentCount(pairs[i]), bank.pairCount(pairs[i]), numText)
  {
    if pairs != [] {
      PairRowsAt(bank, pairs[..|pairs| - 1], numText);
    }
  }

  /** `writePairData`: fills a nine-cell row and writes it. */
  method WritePairData(w: CsvWriter, t0: Term, t1: Term, score: real, documents: int32, frequency: int32,
                       numText: real -> string)
    modifies w
    ensures w.rows == old(w.rows) + [PairRow(t0, t1, score, documents, frequency, numText)]
  {
    var row := new string[9](_ => "");
    row[0] := t0.termString;
    row[1] := t0.languageCode;
    row[2] := t0.termType;
    row[3] := t1.termString;
    row[4] := t1.languageCode;
    row[5] := t1.termType;
    row[6] := numText(score);
    row[7] := DecimalString(documents as int);
    row[8] := DecimalString(frequency as int);
    assert row[..] == PairRow(t0, t1, score, documents, frequency, numText);
    w.WriteNext(row[..]);
  }

  /** `writeHeader`. */
  method WriteHeader(w: CsvWriter, bank: PairBank)
    modifies w
    ensures w.rows == old(w.rows) + [PairHeaderRow(bank.scoreProperty)]
  {
    w.WriteNext(["Term", "Lang", "Type", "Term", "Lang", "Type", bank.scoreProperty, "DocFrequency", "Frequency"]);
  }

  /**
   * `generateAndSaveCsv(pairbank, threshold, outputFile)`. `fault` says
   * whether opening or closing the file throws; `rows` is what reached the
   * writer and `sorted` the ranked pair list the loop walked.
   */
  method GenerateAndSaveCsv(bank: PairBank, threshold: real, fault: IoFault, numText: real -> string)
    returns (outcome: Outcome<GateException>, rows: seq<seq<string>>, written: nat,
             ghost sorted: seq<UnorderedTermPair>)
    ensures outcome == (if fault == NoFault then Pass else Fail(GateException(fault)))
    ensures fault == OpenFails ==> rows == [] && written == 0
    ensures fault != OpenFails ==> RankedKeys(sorted, bank.scores)
    ensures fault != OpenFails ==>
      rows == [PairHeaderRow(bank.scoreProperty)] + PairRows(bank, ScoredPrefix(sorted, bank.scores, threshold), numText)
    ensures fault != OpenFails ==>
      written == |ScoredPrefix(sorted, bank.scores, threshold)| && |rows| == 1 + written
    ensures fault != OpenFails ==>
      forall p :: p in ScoredPrefix(sorted, bank.scores, threshold) <==> p in bank.scores && bank.scores[p] >= threshold
  {
    if fault == OpenFails {
      return Fail(GateException(fault)), [], 0, [];
    }
    var w := new CsvWriter();
    var scores := bank.scores;
    var pairs := SortedKeys(scores);
    sorted := pairs[..];
    written := 0;
    WriteHeader(w, bank);
    var i := 0;
    while i < pairs.Length
      modifies w
      invariant 0 <= i <= pairs.Length && written == i
      invariant sorted == pairs[..]
      invariant forall k :: 0 <= k < i ==> scores[sorted[k]] >= threshold
      invariant w.rows == [PairHeaderRow(bank.scoreProperty)] + PairRows(bank, sorted[..i], numText)
    {
      var pair := pairs[i];
      var score := scores[pair];
      if score < threshold {
        assert scores[sorted[i]] < threshold;
        break;
      }
      written := written + 1;
      WritePairData(w, pair.term0, pair.term1, score, bank.documentCount(pair), bank.pairCount(pair), numText);
      assert sorted[..i + 1][..i] == sorted[..i];
      assert PairRows(bank, sorted[..i + 1], numText) == PairRows(bank, sorted[..i], numText) +
        [PairRow(pair.term0, pair.term1, score, bank.documentCount(pair), bank.pairCount(pair), numText)];
      i := i + 1;
    }
    assert i < |sorted| ==> scores[sorted[i]] < threshold;
    ThresholdLoopExit(sorted, scores, threshold, i);
    rows := w.rows;
    outcome := if fault == NoFault then Pass else Fail(GateException(fault));
  }
}
