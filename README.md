# TermRaider term bank and ranked CSV export, in Dafny

This project models the core of GATE TermRaider's term ranking:

- `Term`, an immutable (term string, language code, type) triple. It has
  Java equality, a hash code, lexicographic `compareTo` and the looser
  `closeMatch`.
- `DocumentIdentifier`, an (identifier, index) key.
- `AbstractTermbank`, the store of per-score-type term scores and per-term
  document sets. It provides lookups that never fail, a lazily cached ranking
  by descending default score, a lazily cached default-score range, and the
  CSV rows the bank contributes to an export.
- `CsvGenerator` and `PairCsvGenerator`. Each walks a list ranked by score,
  writes a header and then one row per entry, and stops at the first entry
  whose score is below the threshold.

Modules, one per source file plus shared pieces:

| module | file | models |
|---|---|---|
| `Wrappers` | wrappers.dfy | Option / Result / Outcome for null and exceptions |
| `JavaBasics` | java_basics.dfy | Java `int` wrap-around, nullable strings, `String.compareTo`, `Integer.toString` |
| `TermIdentity` | term.dfy | `Term.java` |
| `DocumentIds` | document_identifier.dfy | `DocumentIdentifier.java` |
| `Ranking` | ranking.dfy | key set to list, in-place sort by descending score, the threshold prefix |
| `Csv` | csv.dfy | the CSV writer as a growing sequence of rows; I/O faults |
| `Termbank` | termbank.dfy | `AbstractTermbank.java` (class `TermBank`) |
| `CsvGenerator` | csv_generator.dfy | `CsvGenerator.java` |
| `PairCsvGenerator` | pair_csv_generator.dfy | `PairCsvGenerator.java` |

Modelling choices:

- Scores (`Number`, `Double`) are `real`. Their `toString` is the parameter
  `numText: real -> string`. Java's `String.hashCode` is the parameter
  `strHash: string -> int32`. For the hash, only "equal values have equal
  hashes" is proved. The sums and products of the hash codes wrap at 32 bits,
  as Java `int` arithmetic does.
- The termbank is a class. The data that the subclass hooks fill during
  `init` are `const` fields: the score types, the score maps, the document
  sets and the document count. The caches the source fills lazily are `var`
  fields: the ranked list with its done-flag, and the min/max bounds. The
  invariant `Valid()` says that a filled cache agrees with the default scores.
- A CSV writer is an object whose `rows` sequence `writeNext` appends to.
  An export takes an `IoFault`:
  - `OpenFails`: the file cannot be opened, so nothing is written and a
    `GateException` results.
  - `CloseFails`: every row is written and then a `GateException` results.
- Java `null` is modelled explicitly:
  - A null language code becomes "" in `Term`.
  - A null document identifier string is compared null-safely and prints as
    "null".
  - `getScoreMap` yields `None` for a missing score.
  - An `equals` argument that is null, or of another class, is `None`.

Points where the code itself fixes what the model does:

- The comparators that break ties between equal scores are not part of this
  model, so the model proves only that each ranked list is non-increasing by
  score.
- `CsvGenerator.generateAndSaveCsv` as written (3 arguments) writes only the
  header rows and the term rows, with no per-document rows. The per-document
  row builder is modelled on its own (`WriteCsvTermDocumentData`).
- `AbstractTermbank.saveAsCsv` (bank/AbstractTermbank.java:261-263) calls a
  4-argument `generateAndSaveCsv`, which is not defined in
  output/CsvGenerator.java. That file in turn calls a 1-argument
  `writeCSVHeader` (output/CsvGenerator.java:50), which is not defined in
  AbstractTermbank.java; the bank defines only the 2-argument one
  (bank/AbstractTermbank.java:285). The model uses the 2-argument header with
  `documentDetails = false`.

## Model

| member | source | states |
|---|---|---|
| `TermIdentity.NewTerm` | src/main/java/gate/termraider/util/Term.java:30-50 | the constructor keeps string and type, and a null language code becomes "" |
| `TermIdentity.EqualsIffSameFields` | src/main/java/gate/termraider/util/Term.java:80-85 | `equals` holds exactly when all three fields are equal, and never for null |
| `TermIdentity.EqualTermsEqualHashes` | src/main/java/gate/termraider/util/Term.java:52 | equal terms have equal hash codes (the hash is a function of the three fields) |
| `TermIdentity.CompareToZeroIffEqual` | src/main/java/gate/termraider/util/Term.java:121-134 | `compareTo` is 0 exactly when the terms are `equals` |
| `TermIdentity.CompareToAntisymmetric` | src/main/java/gate/termraider/util/Term.java:121-134 | `compareTo(t, u) == -compareTo(u, t)` |
| `TermIdentity.CompareToTransitive` | src/main/java/gate/termraider/util/Term.java:121-134 | `compareTo` < 0 is transitive (the lexicographic order on the triple is a strict order) |
| `JavaBasics.StringCompareZeroIffEqual` | src/main/java/gate/termraider/util/Term.java:122 | `String.compareTo` is 0 exactly for equal strings |
| `JavaBasics.StringCompareAntisymmetric` | src/main/java/gate/termraider/util/Term.java:127 | `String.compareTo` changes sign when its arguments are swapped |
| `JavaBasics.StringCompareTransitive` | src/main/java/gate/termraider/util/Term.java:132 | `String.compareTo` < 0 is transitive |
| `TermIdentity.CloseMatchCharacterization` | src/main/java/gate/termraider/util/Term.java:99-113 | `closeMatch` holds exactly when strings and types agree and the languages are equal or either one is "" (so it is false when string or type differ) |
| `TermIdentity.CloseMatchSymmetric` | src/main/java/gate/termraider/util/Term.java:108-112 | `closeMatch` is symmetric |
| `TermIdentity.EqualsImpliesCloseMatch` | src/main/java/gate/termraider/util/Term.java:80-85 | equal terms close-match |
| `TermIdentity.ToStringShape` | src/main/java/gate/termraider/util/Term.java:54-59 | the text starts with the term string and ends with the type and ")"; it is exactly 3 characters longer than string and type together iff the language is empty |
| `DocumentIds.NewDocumentIdentifier` | src/main/java/gate/termraider/util/DocumentIdentifier.java:12-23 | the getters return exactly the constructor arguments |
| `DocumentIds.EqualsIffSameFields` | src/main/java/gate/termraider/util/DocumentIdentifier.java:40-56 | `equals` holds exactly when identifiers (null-safe) and indices are equal |
| `DocumentIds.EqualsReflexiveAndNullFalse` | src/main/java/gate/termraider/util/DocumentIdentifier.java:41-44 | `equals` is reflexive and false for null |
| `DocumentIds.DifferentIndexNotEqual` | src/main/java/gate/termraider/util/DocumentIdentifier.java:53-54 | a differing index makes identifiers unequal, in both directions |
| `DocumentIds.EqualIdentifiersEqualHashes` | src/main/java/gate/termraider/util/DocumentIdentifier.java:30-37 | equal identifiers have equal hash codes |
| `DocumentIds.ToStringShape` | src/main/java/gate/termraider/util/DocumentIdentifier.java:26-28 | the text is the identifier (or "null"), then " [", then the decimal index, then "]" |
| `JavaBasics.Wrap32` | src/main/java/gate/termraider/util/DocumentIdentifier.java:32-36 | `int` arithmetic: the result is congruent to the exact value mod 2^32 and equal to it when it fits |
| `JavaBasics.DecimalString` | src/main/java/gate/termraider/bank/AbstractTermbank.java:349 | `Integer.toString` is non-empty and starts with '-' exactly for negative numbers |
| `JavaBasics.DecimalRoundTrip` | src/main/java/gate/termraider/bank/AbstractTermbank.java:314 | `Integer.toString` text reads back as the same number, so the index and count cells lose nothing |
| `JavaBasics.DigitsRoundTrip` | src/main/java/gate/termraider/bank/AbstractTermbank.java:349 | the decimal digits of a natural number read back as that number |
| `Termbank.CheckInit` | src/main/java/gate/termraider/bank/AbstractTermbank.java:69-81 | `init` succeeds iff corpora are given and score types exist; a missing corpus list is reported first (`prepare`), then an empty score-type list |
| `Termbank.Init` | src/main/java/gate/termraider/bank/AbstractTermbank.java:203-206 | fails exactly as `CheckInit` says; otherwise yields a valid bank over the given data with empty caches |
| `Termbank.TermBank.constructor` | src/main/java/gate/termraider/bank/AbstractTermbank.java:58-66 | the bank holds the given score types, scores and document sets, and its caches are empty |
| `Termbank.TermBank.DefaultScoreType` | src/main/java/gate/termraider/bank/AbstractTermbank.java:110-112 | the default score type is the first registered one, and it has a score map |
| `Termbank.TermBank.DefaultScores` | src/main/java/gate/termraider/bank/AbstractTermbank.java:115-117 | the default scores hold exactly the terms scored under the first score type, each with the value `getScore` returns for it |
| `Termbank.TermBank.Terms` | src/main/java/gate/termraider/bank/AbstractTermbank.java:105-117 | "all terms" is exactly the key set of the first score type's map |
| `Termbank.TermBank.GetScore` | src/main/java/gate/termraider/bank/AbstractTermbank.java:94-102 | the stored score if the term has one under that type, otherwise 0 |
| `Termbank.TermBank.GetDocumentsForTerm` | src/main/java/gate/termraider/bank/AbstractTermbank.java:153-160 | the stored document set for a known term, otherwise the empty set |
| `Termbank.TermBank.GetScoreMap` | src/main/java/gate/termraider/bank/AbstractTermbank.java:139-145 | keys are exactly the score types; each maps to the stored score, or to null when there is none |
| `Termbank.TermBank.GetTermsByDescendingScore` | src/main/java/gate/termraider/bank/AbstractTermbank.java:123-131 | returns a permutation of the default-scored terms, non-increasing by default score; after the first call it returns the cached list unchanged |
| `Termbank.TermBank.FindMinAndMaxDefaultScores` | src/main/java/gate/termraider/bank/AbstractTermbank.java:163-182 | fills both bounds: (0, 1) with no scores, otherwise a least and a greatest default score, both among the scores |
| `Termbank.TermBank.GetMinScore` | src/main/java/gate/termraider/bank/AbstractTermbank.java:185-191 | the cached minimum, computed on first use, with min <= every score <= max |
| `Termbank.TermBank.GetMaxScore` | src/main/java/gate/termraider/bank/AbstractTermbank.java:194-200 | the cached maximum, computed on first use, with min <= every score <= max |
| `Termbank.HeaderRowShape` | src/main/java/gate/termraider/bank/AbstractTermbank.java:285-301 | header is Term, Lang, Type, one cell per score type in list order, then documentID, termFrequency iff documentDetails |
| `Termbank.ScoreTypeNamesAt` | src/main/java/gate/termraider/bank/AbstractTermbank.java:292-294 | one header cell per score type, cell i naming score type i |
| `Termbank.TermBank.WriteCsvHeader` | src/main/java/gate/termraider/bank/AbstractTermbank.java:285-304 | appends exactly the header row and then the sub-header row |
| `Termbank.TermBank.WriteCsvSubHeader` | src/main/java/gate/termraider/bank/AbstractTermbank.java:310-317 | appends the fixed 5-cell row with `_TOTAL_DOCS_` in cell 1 and the document count in cell 4 |
| `Termbank.TermBank.ScoreCellsAt` | src/main/java/gate/termraider/bank/AbstractTermbank.java:327-329 | one score cell per score type, cell i the text of the term's score under type i (0 when missing) |
| `Termbank.TermBank.TermRowShape` | src/main/java/gate/termraider/bank/AbstractTermbank.java:319-332 | a term row has 3 + #score types cells: string, language, type, then the scores in score-type order |
| `Termbank.TermBank.WriteCsvTermData` | src/main/java/gate/termraider/bank/AbstractTermbank.java:319-332 | appends exactly the term's row |
| `Termbank.TermBank.TermDocumentRowShape` | src/main/java/gate/termraider/bank/AbstractTermbank.java:338-349 | a document row has 5 + #score types cells: the term row, then the document's identifier and decimal index |
| `Termbank.TermBank.TermDocumentRowsAt` | src/main/java/gate/termraider/bank/AbstractTermbank.java:336-352 | row i of the document section is the document row of the i-th document visited |
| `Termbank.TermBank.WriteCsvTermDocumentData` | src/main/java/gate/termraider/bank/AbstractTermbank.java:334-353 | for a term with a document set, appends one row per document of that set, each document exactly once |
| `Ranking.ListOfSet` | src/main/java/gate/termraider/bank/AbstractTermbank.java:126 | copying a set into a list keeps every element exactly once |
| `Ranking.SortByDescendingScore` | src/main/java/gate/termraider/output/PairCsvGenerator.java:53 | sorting in place leaves a permutation, non-increasing by score |
| `Ranking.SortedKeys` | src/main/java/gate/termraider/output/PairCsvGenerator.java:52-53 | the list of a map's keys, sorted by descending score: every key once, non-increasing |
| `Ranking.ScoredPrefix` | src/main/java/gate/termraider/output/CsvGenerator.java:52-61 | the early-exit loop keeps a prefix of the list, all at or above the threshold, and stops at the first entry below it |
| `Ranking.ScoredPrefixUnique` | src/main/java/gate/termraider/output/PairCsvGenerator.java:58-62 | any prefix that is all at or above the threshold and ends at the list end or at an entry below it is that prefix |
| `Ranking.FilterAtLeastMembers` | src/main/java/gate/termraider/output/CsvGenerator.java:54 | the threshold filter keeps exactly the entries scoring at least the threshold |
| `Ranking.PrefixIsFilterWhenSorted` | src/main/java/gate/termraider/output/CsvGenerator.java:58-59 | on a non-increasing list, stopping at the first entry below the threshold gives the same list as filtering the whole list |
| `Ranking.RankedPrefixMembers` | src/main/java/gate/termraider/output/CsvGenerator.java:52-61 | for a ranking of all keys, the kept entries are exactly the keys scoring at least the threshold |
| `Ranking.ThresholdLoopExit` | src/main/java/gate/termraider/output/PairCsvGenerator.java:58-62 | what the loop kept when it ends is the threshold prefix, which holds exactly the keys at or above the threshold |
| `CsvGenerator.TermRowsAt` | src/main/java/gate/termraider/output/CsvGenerator.java:52-55 | one term row per exported term, in the ranked order |
| `CsvGenerator.GenerateAndSaveCsv` | src/main/java/gate/termraider/output/CsvGenerator.java:32-66 | header and sub-header come first, then one row per term of the longest ranked prefix scoring at least the threshold; the exported terms are exactly the scored terms at or above it; `written` counts them; an I/O fault gives one GateException |
| `PairCsvGenerator.PairRowShape` | src/main/java/gate/termraider/output/PairCsvGenerator.java:84-99 | a pair row has 9 cells: term0 and term1 (string, lang, type), score, document count, pair count |
| `PairCsvGenerator.WritePairData` | src/main/java/gate/termraider/output/PairCsvGenerator.java:84-99 | appends exactly that 9-cell row |
| `PairCsvGenerator.WriteHeader` | src/main/java/gate/termraider/output/PairCsvGenerator.java:101-104 | appends the 9-cell header whose cell 6 is the score property name |
| `PairCsvGenerator.PairRowsAt` | src/main/java/gate/termraider/output/PairCsvGenerator.java:58-67 | one pair row per kept pair, in ranked order |
| `PairCsvGenerator.GenerateAndSaveCsv` | src/main/java/gate/termraider/output/PairCsvGenerator.java:37-76 | walks all scored pairs ranked by descending score; writes the header, then the pair rows of the longest prefix at or above the threshold; these are exactly the pairs scoring at least the threshold; `written` counts them; an I/O fault gives one GateException |

## Left out

- `ActionSaveCsv`, `createActions`/`getActions` and the `@CreoleParameter` setters: these are Swing and GATE plumbing with no logic of their own.
- `processCorpora`/`processCorpus`, the `Term(Annotation, Document, ...)` constructor, `getLanguage` and `getFeatureOrString`: these are GATE document access. The occurrences they would produce are inputs.
- `initializeScoreTypes`, `resetScores`, `processDocument`, `calculateScores` and `getMiscDataForGui` are abstract hooks whose bodies are not part of this model. `Init` takes their results as inputs. It requires a score map for each score type, which is what `resetScores` is there to provide.
- Writing scores after the first ranking or range computation is not modelled: the bank's data fields are fixed once `Init` returns. The source would then keep serving the stale cached list and bounds.
- The comparators `TermComparatorByDescendingScore` and `TermPairComparatorByDescendingScore` are not part of this model. The in-place sort stands in for `Collections.sort` with them.
- `GetTermsByDescendingScore`: proves non-increasing order only, with no tie-break rule, because the comparator's tie-break is not part of this model.
- `PairCsvGenerator.GenerateAndSaveCsv`: proves non-increasing order only, with no tie-break rule, for the same reason.
- `UnorderedTermPair` and `AbstractPairbank` are not part of this model. The pair exporter reads a pair's two terms, its score map, its two counts and its score property name as given inputs.
- `getDocumentCount()` of the bank is not part of this model. It is the input `documentCount`.
- File and CSV library plumbing is not modelled: `FileWriter`, the RFC 4180 parser and writer setup, quoting, line endings, and closing by try-with-resources. A writer is its sequence of rows. A null identifier cell is taken to be written as an empty field.
- Floating-point `Number`/`double` semantics (NaN, rounding, `doubleValue` conversions) are not modelled; scores are reals. `Number.toString` is the parameter `numText`, and Java's `String.hashCode` is the parameter `strHash`.
- Debug output is not modelled: `addComment`, `System.out` and `System.err`.
- `saveAsCsv` (both overloads) is not modelled because it calls a 4-argument `CsvGenerator.generateAndSaveCsv` that does not exist in the source.
- `CsvGenerator.GenerateAndSaveCsv`: writes the header with `documentDetails = false` and no per-document section. This is because the 1-argument `writeCSVHeader` it calls is not defined in AbstractTermbank.java.
- `getTermDocuments`, `getScoreTypes`, `getScores` and `cleanup` are plain field reads or framework calls. They appear as the class's fields.
- `JavaBasics.StringCompare` and `TermIdentity.CompareTo`: strings are sequences of Unicode scalar values, not of UTF-16 code units. For characters outside the Basic Multilingual Plane the sign and magnitude of the result can differ from Java's (a supplementary character counts as one unit, not two surrogates), and strings with unpaired surrogates cannot be represented.
- `TermIdentity.NewTerm`: takes a non-null term string and type; the source throws a NullPointerException for a null one when it hashes them (util/Term.java:52).
- `TermIdentity.CloseMatch` and `TermIdentity.CompareTo`: take a `Term`, so the NullPointerException the source throws for a null argument (util/Term.java:100 and 122) is not modelled.
- `Termbank.TermBank.GetScore`: requires the score type to have a score map; the source throws a NullPointerException when it has none (bank/AbstractTermbank.java:95-96). `Init` requires a map for every score type, so this never happens inside a bank.
- `Termbank.TermBank.ScoreCells`: a missing score is the real 0 and is printed with `numText(0.0)`. The source returns the `Integer` 0, printed "0", while a stored `Double` zero prints "0.0"; the model does not tell the two apart.
- `DocumentIds.ToString`: `%d` is rendered with ASCII digits and a '-' sign; Java formats it with the default locale's digits, which the model does not capture.
