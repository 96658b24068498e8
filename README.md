# FairStake core logic in Dafny

This project models the deterministic core of the FairStake backends and proves properties of it:

- **Finance360 SMS pipeline.**
  - `parse_sms_block` runs the `TRANSACTION_REGEX` search over each stripped line and builds the transaction records.
  - `compute_financial_metrics` turns the records into inflow, outflow, a savings rate and a clamped health score.
  - `transactions_to_features` computes the averaged features.
- **FairScore placeholder scorer** (`FairScoreModel`).
  - It normalises feature names, forms a weighted sum over seven features on top of a base of 50, and truncates and clamps the result.
  - It ranks contributions by absolute value, keeps the top three, and derives suggestions from them.
- **Keyword rule classifiers.**
  - LoanGuard's `analyze_text` reports one risky clause per (line, rule) pair that fires.
  - SchemeSense's `classify_clause` and `bulk_classify` take the first bias category whose keyword occurs.
- **Splitters.**
  - `segment_clauses` splits at blank lines and removes a bullet.
  - `chunk_text` walks overlapping windows over the text.
- **ClearClause offline helpers.**
  - The transliteration state machine `transliterate`, and the token rewrite and cleanup of `offline_translate`.
  - The extractive summary: `_split_sentences`, `_word_freqs`, `extractive_summary`, and the sentence budget `max_sents` of `generate_summary`'s fallback.

Each core source file has a module of its own, except `sms_parser.py`, whose regular expression is the module `SmsPattern` beside `SmsParser`, and `legal_processor.py`, whose three core parts are the modules `Transliteration`, `OfflineTranslation` and `LegalSummary`. Each module takes the form of the code it models:

- Loops that append or update (`parse_sms_block`, `predict`, `analyze_text`, `segment_clauses`, `chunk_text`, `transliterate`, the token loop, `_word_freqs`, `extractive_summary`) are methods with loop invariants. Each is proved equal to a specification function, and the promised properties are lemmas about that function.
- `FairScoreModel` is a class whose constant `featureWeights` is the placeholder weight table set by its constructor. No method changes it, as no method of the source does.
- Pure code (the metrics, the features, the classifier, the sentence splitter) is functions and lemmas.

Shared modules:

- `Text` models Python's `str.strip`, `splitlines`, `split`, `lower`, `join` and `in`.
- `Dict` models an insertion-ordered Python dict as a list of pairs.
- `Sorting` is a stable insertion sort of positions by a key.
- `Numeric` models `int()` truncation, clamping and `round(x, 2)`.
- `Selection` picks the positions of flagged elements.
- `Wrappers` holds `Option` and `Result`.

The regular expression of the SMS parser is modelled by a generic backtracking matcher over a list of pattern elements:

- Every element has a declarative meaning. Its candidate ends are listed in the order Python's engine tries them: greedy longest first, lazy shortest first, alternatives left to right.
- The matcher is proved sound and complete against that meaning.
- The match it reports at the leftmost start is the one the engine makes.

Amounts and scores are exact `real` numbers. Dates are modelled as `strptime("%d%b%y")` parses them.

## Model

| member | source | states |
|---|---|---|
| SmsPattern.MatchSound | backend/app/utils/sms_parser.py:5-8 | a match the engine returns satisfies every element of the pattern in turn |
| SmsPattern.MatchComplete | backend/app/utils/sms_parser.py:5-8 | if some way of matching the pattern exists at a position, the engine finds a match there |
| SmsPattern.MatchIff | backend/app/utils/sms_parser.py:5-8 | the backtracking engine succeeds at a position exactly when the pattern can match there |
| SmsPattern.MatchPreferred | backend/app/utils/sms_parser.py:5-8 | the reported match is the engine's choice: every element takes the first of its candidates, in engine order, after which the rest can still match |
| SmsPattern.SearchFrom | backend/app/utils/sms_parser.py:18 | `search` reports a match at its start, and no earlier start has one |
| SmsPattern.SearchIff | backend/app/utils/sms_parser.py:18-19 | `search` succeeds exactly when the pattern matches at some position of the line |
| SmsPattern.SearchFound | backend/app/utils/sms_parser.py:18 | the reported match holds, is the engine's preferred one, and starts at the leftmost position where any match exists |
| SmsPattern.SearchShape | backend/app/utils/sms_parser.py:18 | a reported match has one end per pattern element, in order, within the line |
| SmsPattern.Search | backend/app/utils/sms_parser.py:5-18 | a successful `TRANSACTION_REGEX.search` gives 21 ordered element ends inside the line |
| SmsPattern.SearchReports | backend/app/utils/sms_parser.py:18 | the ends reported by `Search` are the engine's match at the reported start |
| SmsPattern.AmountGroupShape | backend/app/utils/sms_parser.py:6 | the amount group is `[0-9,]+` followed by an optional `.` and at most two digits |
| SmsPattern.DirectionGroupText | backend/app/utils/sms_parser.py:6-23 | the direction group, lowercased, is `debited` or `credited` |
| SmsPattern.DateGroupShape | backend/app/utils/sms_parser.py:6 | the date group is one or two digits, three letters and two digits |
| SmsPattern.RefGroupShape | backend/app/utils/sms_parser.py:6-31 | the reference is a non-empty digit string and the whole digit run after the keyword |
| SmsPattern.BankGroupShape | backend/app/utils/sms_parser.py:6-32 | the bank is a whole run of two or more letters, and no pair of letters occurs between the reference and the bank |
| SmsPattern.BankIsFirstLetterPair | backend/app/utils/sms_parser.py:6 | the lazy gap before the bank stops at the first letter pair after the reference digits |
| SmsPattern.RefTakesWholeRun | backend/app/utils/sms_parser.py:6 | the greedy `\d+` of the reference takes the whole digit run |
| SmsPattern.BankTakesWholeRun | backend/app/utils/sms_parser.py:6 | the greedy `[A-Z]{2,}` of the bank takes the whole letter run |
| SmsParser.RemoveCommasDigits | backend/app/utils/sms_parser.py:22 | removing commas from the amount group leaves only digits, and leaves nothing exactly when the group held only commas |
| SmsParser.AmountParsesIff | backend/app/utils/sms_parser.py:22 | `float()` of the comma-free amount succeeds exactly when the amount group holds a digit |
| SmsParser.ParseDecimal | backend/app/utils/sms_parser.py:22 | a parsed amount is never negative |
| SmsParser.ParseDecimalRupees | backend/app/utils/sms_parser.py:22 | the decimal text of a whole number parses back to that number |
| SmsParser.ParseDecimalPaise | backend/app/utils/sms_parser.py:22 | rupees, a point and two paise digits parse to rupees plus paise over 100 |
| SmsParser.Century | backend/app/utils/sms_parser.py:25 | a two-digit `%y` year maps into 1969..2068 and keeps its last two digits |
| SmsParser.ParseSmsDate | backend/app/utils/sms_parser.py:25 | a successful `strptime(date, "%d%b%y")` yields an existing calendar day in 1969..2068 |
| SmsParser.ParseFormatSmsDate | backend/app/utils/sms_parser.py:25 | every day in 1969..2068 written as `ddMonyy` parses back to itself |
| SmsParser.DateGroupConsumed | backend/app/utils/sms_parser.py:24-25 | a date group the pattern captured never fails with "unconverted data remains" |
| SmsParser.ParseIsoFormat | backend/app/utils/sms_parser.py:28 | the `isoformat()` text of a date reads back as that date |
| SmsParser.ToTransactionFailure | backend/app/utils/sms_parser.py:22-25 | a matched line raises exactly when its amount has no digit or its date is invalid; the amount is checked first |
| SmsParser.ToTransactionSuccess | backend/app/utils/sms_parser.py:22-34 | a record keeps its stripped line as `raw`; it is `credit` exactly for `credited` and `debit` exactly for `debited`, case-insensitively; and it is well formed: a non-negative amount, an ISO date of a real day, a digit reference, a bank of two or more letters |
| SmsParser.TakeLine | backend/app/utils/sms_parser.py:15-35 | one turn of the loop: a blank line is skipped, an unmatched one goes to `unparsed`, a matched one becomes a record or raises |
| SmsParser.ParseSmsBlock | backend/app/utils/sms_parser.py:11-36 | the loop over `splitlines()` returns exactly the fold of the per-line outcomes |
| SmsParser.ParsedPartition | backend/app/utils/sms_parser.py:14-33 | `unparsed` is, in order, exactly the stripped non-blank lines with no match; the records' `raw` texts are exactly the stripped matched lines; every record is well formed |
| SmsParser.ParseLinesFailure | backend/app/utils/sms_parser.py:22-25 | the block raises exactly when one of its lines raises, and then with the error of the first such line |
| SmsParser.CollectFailureStays | backend/app/utils/sms_parser.py:22-25 | once a line has raised, later lines do not change the outcome |
| SmsParser.FlowsTotal | backend/app/utils/sms_parser.py:40-41 | inflow plus outflow is the sum of all amounts |
| SmsParser.FlowConcat | backend/app/utils/sms_parser.py:40-41 | each flow over two lists of records is the sum of the flows over each |
| SmsParser.FlowBounds | backend/app/utils/sms_parser.py:40-41 | with non-negative amounts, each flow lies between 0 and the total |
| SmsParser.SavingsRateBounds | backend/app/utils/sms_parser.py:42 | with income, the savings rate is at most 1, equals 1 exactly without spending, and is negative exactly when spending exceeds income |
| SmsParser.HealthScore | backend/app/utils/sms_parser.py:43-44 | `max(0, min(100, int(70 + (rate - 0.3) * 30)))` lies in 0..100 |
| SmsParser.HealthScoreMonotone | backend/app/utils/sms_parser.py:44 | a higher savings rate never lowers the health score |
| SmsParser.HealthScoreValues | backend/app/utils/sms_parser.py:42-44 | the score is 61 at rate 0 and 91 at rate 1; it is at most 91 for a rate of at most 1, and 0 exactly below a rate of -2 |
| SmsParser.ComputeFinancialMetrics | backend/app/utils/sms_parser.py:39-52 | inflow and outflow lie within half a cent of the credit and debit sums; volatility is 0.3; the score lies in 0..100; the nudges are the two fixed strings |
| SmsParser.MetricsOfNonNegative | backend/app/utils/sms_parser.py:40-46 | with non-negative amounts, both flows are non-negative, the score is at most 91, and a list without credits scores 61 |
| SmsParser.BlockMetrics | backend/app/utils/sms_parser.py:11-52 | the metrics of any block that parses have non-negative flows and a score in 0..91 |
| FeatureBuilder.Divisor | backend/app/utils/feature_builder.py:7-8 | `max(1, len(transactions))` is at least 1, and is the count of records when there are any |
| FeatureBuilder.TransactionsToFeatures | backend/app/utils/feature_builder.py:11-16 | the result has exactly the four keys, in the order they are inserted, each once |
| FeatureBuilder.FeaturesAgreeWithMetrics | backend/app/utils/feature_builder.py:5-9 | each average is the flow of the metrics (credit or debit) over `max(1, n)`, rounded; the savings rate is the metrics' rate, rounded; with at most one record the averages equal the metrics' inflow and outflow |
| FeatureBuilder.FeaturesWithoutIncome | backend/app/utils/feature_builder.py:7-9 | without credits, the average inflow and the savings rate are 0; no records at all give 0 for every feature except a volatility of 0.25 |
| FeatureBuilder.FeatureVolatilityFixed | backend/app/utils/feature_builder.py:10-15 | the volatility feature is 0.25 for every input |
| FeatureBuilder.FeatureBounds | backend/app/utils/feature_builder.py:7-9 | with non-negative amounts, both averages are non-negative and the savings rate is at most 1, and it is 0 without income |
| FairScore.NormalizeGet | backend/app/models/fairscore_model.py:85-95 | after normalisation, each key holds the last value given under any of the names that feed it |
| FairScore.NormalizeUnique | backend/app/models/fairscore_model.py:85-95 | the normalised dict has each key once |
| FairScore.NormalizeKeeps | backend/app/models/fairscore_model.py:94-95 | a key other than `avg_inflow` and `avg_outflow` keeps its value |
| FairScore.NormalizeAlias | backend/app/models/fairscore_model.py:88-93 | if `avg_inflow` (`avg_outflow`) was not given, it receives the value of `avg_monthly_inflow` (`avg_monthly_outflow`) |
| FairScore.PlaceholderWeightsZip | backend/app/models/fairscore_model.py:64-72 | the placeholder weights are the seven feature names paired with their weights, in table order |
| FairScore.RawScoreLinear | backend/app/models/fairscore_model.py:143-162 | the accumulated score is 50 plus the weighted sum of the seven mapped features (the additive decomposition) |
| FairScore.PlaceholderScore | backend/app/models/fairscore_model.py:158-164 | the score is `clamp(int(50 + sum of weight * value), 0, 100)` |
| FairScore.Placeholder | backend/app/models/fairscore_model.py:164 | the placeholder score lies in 0..100 |
| FairScore.EmptyFeaturesScore | backend/app/models/fairscore_model.py:148-164 | missing features count as 0, so no features at all score exactly 50 |
| FairScore.ScoreFollowsWeightSign | backend/app/models/fairscore_model.py:64-164 | raising one feature with the others fixed never lowers the score when its weight is non-negative, and never raises it when its weight is non-positive |
| FairScore.RankingSorted | backend/app/models/fairscore_model.py:165 | the contributions are ranked by non-increasing absolute value, stably, and the ranking is a permutation |
| FairScore.Top3Largest | backend/app/models/fairscore_model.py:165 | the explanations are the first `min(3, n)` of the ranking; each has an absolute value at least that of every contribution left out |
| FairScore.TopMembers | backend/app/models/fairscore_model.py:165 | each explanation is one of the contributions |
| FairScore.ExplanationCount | backend/app/models/fairscore_model.py:158-165 | a placeholder prediction gives exactly three explanations |
| FairScore.SpecificCases | backend/app/models/fairscore_model.py:178-185 | a contribution earns a specific suggestion exactly when it is negative and belongs to savings rate, volatility, academic score or EMI count; specific suggestions are never defaults |
| FairScore.CollectedSound | backend/app/models/fairscore_model.py:174-185 | every collected suggestion is the specific suggestion of one of the top contributions |
| FairScore.CollectedComplete | backend/app/models/fairscore_model.py:174-185 | every top contribution's specific suggestion is collected |
| FairScore.SuggestionsShape | backend/app/models/fairscore_model.py:170-193 | there are 1 to 3 suggestions; they are the two defaults exactly when no top contribution earns a specific one; otherwise specific ones come from the top contributions |
| FairScore.FairScoreModel.constructor | backend/app/models/fairscore_model.py:41-72 | a model without a trained model file holds the placeholder weights |
| FairScore.FairScoreModel.Predict | backend/app/models/fairscore_model.py:74-100 | the normalising loop, followed by the placeholder prediction, equals the placeholder result of the normalised features |
| FairScore.FairScoreModel.PredictPlaceholder | backend/app/models/fairscore_model.py:141-168 | the prediction is the mapped features' clamped score, top three contributions and their suggestions |
| FairScore.FairScoreModel.WeighFeatures | backend/app/models/fairscore_model.py:158-162 | the loop over the weights yields one rounded contribution per weight, in order, and the unrounded sum on top of the base |
| FairScore.FairScoreModel.GenerateSuggestions | backend/app/models/fairscore_model.py:170-193 | the suggestion loop returns what `Suggestions` specifies (see SuggestionsShape) |
| LoanGuard.AnalyzeText | backend/app/routes/loanguard.py:28-45 | the nested loop returns the response `Analysis` specifies |
| LoanGuard.ScanLines | backend/app/routes/loanguard.py:31-42 | the clauses are those of every line, in line order, and the score grows by 15 per clause from 20 |
| LoanGuard.ScanLine | backend/app/routes/loanguard.py:33-42 | one line appends one clause per firing rule, in rule-table order, and adds 15 for each |
| LoanGuard.AnalysisClauses | backend/app/routes/loanguard.py:31-41 | the risky clauses are exactly the (stripped line, rule) pairs where a keyword of the rule occurs in the lowercased line |
| LoanGuard.LineClausesFiring | backend/app/routes/loanguard.py:33-41 | a line's clauses are, in rule order, one per firing rule, with the line's stripped text and the fixed recommendation |
| LoanGuard.ClausesCount | backend/app/routes/loanguard.py:31-42 | the number of clauses is the number of firing (line, rule) pairs |
| LoanGuard.ScoreAndSummary | backend/app/routes/loanguard.py:30-44 | the score is `min(100, 20 + 15 n)` and lies in 20..100; it is 20 exactly without clauses and 100 from six clauses on; the summary says low risk exactly without clauses |
| NlpClassifier.FirstMatch | backend/app/utils/nlp_classifier.py:27-28 | the category found is the first whose keyword occurs; none is found only when no category's keyword occurs |
| NlpClassifier.TablesCovered | backend/app/utils/nlp_classifier.py:4-22 | every category of the keyword table has a suggestion |
| NlpClassifier.ClassifyFirstMatch | backend/app/utils/nlp_classifier.py:25-38 | a clause gets the first category, in table order, with a keyword in the lowercased text, with 0.82 and its suggestion; with no such category it gets neutral |
| NlpClassifier.ClassifyOutcomes | backend/app/utils/nlp_classifier.py:4-38 | the prediction is one of the three categories with 0.82 and its suggestion, or neutral with 0.4 and "No action needed." |
| NlpClassifier.ClassifyIgnoresCase | backend/app/utils/nlp_classifier.py:26 | a clause and its lowercase form get the same prediction |
| NlpClassifier.BulkClassifyElementwise | backend/app/utils/nlp_classifier.py:41-42 | `bulk_classify` keeps the length, and element i is the prediction for clause i |
| ClauseSegmenter.SegmentClauses | backend/app/utils/clause_segmenter.py:4-16 | the loop returns the clauses `Segments` specifies |
| ClauseSegmenter.SegmentsCorrespond | backend/app/utils/clause_segmenter.py:9-15 | the clauses correspond, in order, to the `"\n\n"` chunks that are not white space only, so there are at most as many clauses as chunks |
| ClauseSegmenter.CleanedEmptyIff | backend/app/utils/clause_segmenter.py:10-12 | a chunk is skipped exactly when it is white space only |
| ClauseSegmenter.SegmentsOneLine | backend/app/utils/clause_segmenter.py:10 | no clause contains a newline |
| ClauseSegmenter.BulletCut | backend/app/utils/clause_segmenter.py:13-14 | a leading `-` or `*` is removed, exactly one character, and the rest stripped again |
| ClauseSegmenter.MarkerLeavesTwo | backend/app/utils/clause_segmenter.py:13-14 | of the three-character marker `â€¢`, only the first character is removed |
| ClauseSegmenter.BareBullet | backend/app/utils/clause_segmenter.py:11-15 | a chunk holding only a `-` or `*` yields an empty clause, which is kept |
| RagIngest.Window | backend/app/utils/rag_ingest.py:98-99 | a window of a non-negative `chunk_size` is at most that long |
| RagIngest.WindowAt | backend/app/utils/rag_ingest.py:97-104 | window k starts at `k * (chunk_size - overlap)`, and windows exist exactly for the starts below the length |
| RagIngest.IsBlank | backend/app/utils/rag_ingest.py:101 | `not chunk.strip()` holds exactly for white-space-only chunks |
| RagIngest.ChunkText | backend/app/utils/rag_ingest.py:83-106 | the loop terminates; an empty text gives no chunks; otherwise the chunks are `Chunks` (the kept windows) |
| RagIngest.ChunksAreWindows | backend/app/utils/rag_ingest.py:97-104 | the chunks are, in order, exactly the windows that are not white space only, each at most `chunk_size` long |
| RagIngest.EmptyText | backend/app/utils/rag_ingest.py:97 | empty text gives no chunks |
| RagIngest.ConsecutiveOverlap | backend/app/utils/rag_ingest.py:104 | two consecutive windows, the first one full, share exactly `overlap` characters |
| RagIngest.Coverage | backend/app/utils/rag_ingest.py:97-104 | with `0 <= overlap < chunk_size`, every position of the text lies in some window |
| RagIngest.StuckWithoutStep | backend/app/utils/rag_ingest.py:97-104 | with `chunk_size <= overlap` on a non-empty text, `start` never passes 0, so the loop never ends (see Findings) |
| Transliteration.Transliterate | clearclause-legal-assistant/backend/legal_processor.py:190-293 | the index loop returns what `Transliterated` specifies, and each turn advances |
| Transliteration.Scan | clearclause-legal-assistant/backend/legal_processor.py:218-293 | the `while i < len(w)` loop builds the piece-by-piece transliteration; its body (`NextPiece`, the `if` chain whose branches end in `continue`) computes the piece `StepAt` specifies and advances `i` by 1 to 5 |
| Transliteration.StepAt | clearclause-legal-assistant/backend/legal_processor.py:220-291 | each turn advances `i` by at least 1 and at most 5, so the loop terminates |
| Transliteration.LongestConsonant | clearclause-legal-assistant/backend/legal_processor.py:221-276 | the longest consonant key (3, then 2, then 1 letters) at `i` wins, and its letter starts the piece |
| Transliteration.VowelSignPreferred | clearclause-legal-assistant/backend/legal_processor.py:226-273 | after a consonant, a two-letter vowel sign wins over a one-letter one; with neither, the consonant stands alone |
| Transliteration.CopiesNonLetters | clearclause-legal-assistant/backend/legal_processor.py:289-291 | characters in no table are copied unchanged |
| Transliteration.ScriptWellFormed | clearclause-legal-assistant/backend/legal_processor.py:195-216 | the tables chosen (Hindi for "Hindi", otherwise Kannada) have Latin keys, non-Latin values and a key for every letter |
| Transliteration.NoLatinLeft | clearclause-legal-assistant/backend/legal_processor.py:190-293 | a transliterated word has no ASCII letter left in it, in either script |
| Transliteration.NonLettersUnchanged | clearclause-legal-assistant/backend/legal_processor.py:289-291 | a word without ASCII letters comes out unchanged |
| OfflineTranslation.TermsNonLatin | clearclause-legal-assistant/backend/legal_processor.py:91-178 | every term of the chosen dictionary (Hindi or Kannada) is free of ASCII letters |
| OfflineTranslation.TokenShapes | clearclause-legal-assistant/backend/legal_processor.py:188 | every token is a run of two or more letters, a run of digits, or one character that is neither a letter nor a digit |
| OfflineTranslation.TokensCover | clearclause-legal-assistant/backend/legal_processor.py:188 | without isolated letters, the tokens spell out the text |
| OfflineTranslation.LoneLetterDropped | clearclause-legal-assistant/backend/legal_processor.py:188 | an isolated single letter matches no token pattern and is dropped |
| OfflineTranslation.RenderToken | clearclause-legal-assistant/backend/legal_processor.py:297-301 | a word token becomes its dictionary term or its transliteration; every other token is kept |
| OfflineTranslation.RenderedTransliterates | clearclause-legal-assistant/backend/legal_processor.py:297-299 | a word with no dictionary term is transliterated in lowercase |
| OfflineTranslation.RenderTokens | clearclause-legal-assistant/backend/legal_processor.py:295-301 | the token loop renders each token in order |
| OfflineTranslation.OfflineTranslate | clearclause-legal-assistant/backend/legal_processor.py:188-306 | the token pass, join and cleanup return what `Translation` specifies |
| OfflineTranslation.CollapseKeeps | clearclause-legal-assistant/backend/legal_processor.py:305 | `re.sub(r"\s+", " ", ...)` keeps every visible character and leaves only single spaces |
| OfflineTranslation.CleanupShape | clearclause-legal-assistant/backend/legal_processor.py:303-306 | the output is the collapsed and stripped text followed by the offline notice |
| OfflineTranslation.TranslationShape | clearclause-legal-assistant/backend/legal_processor.py:188-306 | the output ends with the notice; before it the text is stripped, has single spaces and no ASCII letter |
| OfflineTranslation.NoLettersKept | clearclause-legal-assistant/backend/legal_processor.py:188-306 | a text without ASCII letters is only tidied and given the notice |
| LegalSummary.FirstSplit | clearclause-legal-assistant/backend/legal_processor.py:310 | the split found is the first place where white space follows `.`, `!` or `?` |
| LegalSummary.SplitShape | clearclause-legal-assistant/backend/legal_processor.py:310 | `re.split` cuts at every separator and nowhere else: no part holds a separator, and every part but the last ends with a stop |
| LegalSummary.SplitVisible | clearclause-legal-assistant/backend/legal_processor.py:310 | only white space is removed between the parts |
| LegalSummary.StrippedShape | clearclause-legal-assistant/backend/legal_processor.py:311 | stripping the parts and dropping the empty ones keeps that shape |
| LegalSummary.SentencesSpec | clearclause-legal-assistant/backend/legal_processor.py:308-311 | sentences are non-empty and have no white space around them; every sentence but the last ends with a stop; together they hold exactly the text's visible characters, in order |
| LegalSummary.WordsSpec | clearclause-legal-assistant/backend/legal_processor.py:314-335 | `re.findall(r"[a-zA-Z0-9']+")` gives non-empty runs of word characters that together hold all the text's word characters, in order |
| LegalSummary.CountWords | clearclause-legal-assistant/backend/legal_processor.py:318-323 | the counting loop builds the dictionary `Counts` specifies |
| LegalSummary.WordFreqs | clearclause-legal-assistant/backend/legal_processor.py:313-323 | `_word_freqs` is the count of the lowercased text's words |
| LegalSummary.CountsGet | clearclause-legal-assistant/backend/legal_processor.py:319-322 | a word of at least three characters that is not a stop word maps to the number of its occurrences; every other word is absent |
| LegalSummary.CountsTotal | clearclause-legal-assistant/backend/legal_processor.py:318-323 | keys are unique, each count is at least 1, and the counts add up to the number of counted words |
| LegalSummary.FreqsSpec | clearclause-legal-assistant/backend/legal_processor.py:313-323 | both facts above for the words of the lowercased text with the module's stop words |
| LegalSummary.Score | clearclause-legal-assistant/backend/legal_processor.py:335-338 | a sentence's score is never negative |
| LegalSummary.ScoreSentences | clearclause-legal-assistant/backend/legal_processor.py:333-339 | the loop scores every sentence, in order |
| LegalSummary.PrefixLength | clearclause-legal-assistant/backend/legal_processor.py:341 | `scored[:m]` keeps `min(m, n)` items for a non-negative `m` |
| LegalSummary.RankSentences | clearclause-legal-assistant/backend/legal_processor.py:340-341 | the descending tuple sort, the cut to `max_sentences` and the sort by index keep `min(m, n)` positions (Python's `[:m]` count), strictly increasing, each ranked by (score, index) above every position left out |
| LegalSummary.ExtractiveSummary | clearclause-legal-assistant/backend/legal_processor.py:325-343 | empty text gives "(No content to summarize)"; at most `max_sentences` sentences are joined in full; in general the result is `Summary` |
| LegalSummary.ChosenTop | clearclause-legal-assistant/backend/legal_processor.py:340-341 | the kept positions increase strictly, are as many as the prefix keeps, and each ranks by (score, index) above every position left out |
| LegalSummary.SummaryPicks | clearclause-legal-assistant/backend/legal_processor.py:329-343 | with more sentences than `m`, the summary joins the best-ranked sentences in their original order |
| LegalSummary.MaxSents | clearclause-legal-assistant/backend/legal_processor.py:569-570 | the budget is 10 or 6 |
| LegalSummary.MaxSentsHint | clearclause-legal-assistant/backend/legal_processor.py:569-570 | the budget is 10 exactly when the lowercased instruction contains detailed, comprehensive, bullet or points; no instruction gives 6 |
| LegalSummary.MaxSentsIgnoresCase | clearclause-legal-assistant/backend/legal_processor.py:569 | case does not change the budget |
| LegalSummary.FallbackPicks | clearclause-legal-assistant/backend/legal_processor.py:566-571 | a document with more sentences than the budget gets exactly 6 or 10 sentences, the best-ranked, in their original order |
| Text.Strip | backend/app/utils/sms_parser.py:15 | the stripped text neither starts nor ends with white space |
| Text.StripSlice | backend/app/utils/sms_parser.py:15 | the stripped text is a slice of the text with only white space around it |
| Text.StripEmptyIff | backend/app/utils/sms_parser.py:15-16 | a line strips to nothing exactly when it is white space only |
| Text.SplitLines | backend/app/utils/sms_parser.py:14 | `splitlines()` gives lines without line breaks, and nothing only for the empty text |
| Text.JoinSplit | backend/app/utils/clause_segmenter.py:9 | joining the parts of `split(sep)` with `sep` gives back the text |
| Text.Lower | backend/app/routes/loanguard.py:32 | `lower()` keeps the length and lowercases each character |
| Text.ContainsAnyText | backend/app/routes/loanguard.py:34 | `any(keyword in line ...)` holds exactly when one of the keywords occurs in the line |
| Numeric.Trunc | backend/app/models/fairscore_model.py:164 | `int()` truncates toward zero |
| Numeric.Clamp | backend/app/models/fairscore_model.py:164 | `max(lo, min(hi, n))` lies in the bounds and is `n` inside them |
| Numeric.Round2 | backend/app/utils/feature_builder.py:12-15 | `round(x, 2)` lies within half a cent of `x` |
| Numeric.Round2Monotone | backend/app/utils/feature_builder.py:12-15 | rounding to cents keeps order |
| Sorting.SortSorted | backend/app/models/fairscore_model.py:165 | on distinct positions, the insertion sort's result is ordered by the chosen order: larger key first with ties in list order, by (key, index) descending, or by index ascending |
| Sorting.Sort | backend/app/models/fairscore_model.py:165 | the sort returns a permutation of its input |

## Left out

- SmsPattern.InClass: `\d` and `[A-Za-z]` with IGNORECASE are ASCII classes here, but Python's `\d` also accepts other Unicode digits. For example, "Rs 100 debited on 01Jan24 Ref ١٢٣ HDFC" gives a record with ref "١٢٣" in Python, while the model finds no match, so the line goes to `unparsed`.
- Text.LowerChar: case folding (`lower()` and IGNORECASE) is ASCII only, in the SMS pattern, the classifiers, the word counts and the translation alike. Python also folds non-ASCII letters.
- Numeric.Round2: amounts, averages and scores are exact reals, and `round(x, 2)` is exact half-even rounding of that real. Python rounds the binary double. For example, `round(5.35 / 2, 2)` is 2.67 in Python, because 5.35/2 is 2.67499… as a double, while the model gives 2.68. Python's `float()` parsing is modelled on exact decimals for the same reason.
- LegalSummary.Score: the division `score / (1 + len(words))` and the ranking are on exact reals, so ties between scores that differ only by floating-point error are decided by index here.
- FairScore.FairScoreModel: the class has no `use_ml`, `model` or `scaler` field and no ML branch (fairscore_model.py:96-99, 102-139). Loading a trained XGBoost model from pickle files, and predicting with it, is file I/O and an opaque trained model. The model is always in the placeholder state that `__init__` reaches without model files.
- OfflineTranslation.OfflineTranslate: starts from `processed`, the text after the phrase pass (legal_processor.py:180-185). The `\b`-bounded, case-insensitive phrase substitution is regex-engine behaviour and is taken as given. Translation with the language model (`translate_text`, `robust_generate`) is an external service.
- RagIngest.ChunkText: requires `chunk_size > overlap` for a non-empty text, because the source never terminates otherwise (see Findings). Its only call site (rag_ingest.py:173) passes CHUNK_SIZE = 1000 and CHUNK_OVERLAP = 200 (rag_ingest.py:46-47), which meet this. A negative `chunk_size` with a smaller overlap is modelled with Python's slice semantics.
- RagIngest.ChunksAreWindows: the docstring's example (rag_ingest.py:87-92) shows 19-character chunks for `chunk_size=20`. The code's slice takes 20, and the model follows the code.
- SmsParser.ParseSmsDate: `strptime("%d%b%y")` is modelled concretely. Month abbreviations are English (the C locale), and matching is case-insensitive. Two-digit years below 69 are 20xx, otherwise 19xx. Days must exist in the month, with Gregorian leap years. A date the pattern captured but `strptime` rejects raises `ValueError`, and so does an amount group without a digit (`float(",")`). Either error makes the whole `parse_sms_block` call fail with no result, which the model gives as a `Failure`.
- SmsPattern.TransactionRegex: the pattern is modelled as written. It needs a date after "on"/"dt" before the reference; messages that put the date after the reference, such as "… Ref No 108589157513 on 17Nov25. -BOI", do not match it and go to `unparsed`.
- SmsParser: the amount is kept as the parsed real without Python's float representation. The record's keys (`date`, `amount` and so on) are datatype fields rather than dict keys.
- FairScore.FairScoreModel.Predict: feature values are reals; the features dict is an insertion-ordered list of pairs. Key order, and what happens when a key repeats, follow Python's dict.
- LoanGuard and NlpClassifier: the response and prediction classes (pydantic models, a dataclass) are datatypes. The async route `analyze_loan`, PDF extraction and HTTP wiring are I/O.
- LegalSummary.ExtractiveSummary: `\s` in `_split_sentences` uses the same white-space set as `str.strip` (Python's `isspace` characters of the ASCII and Latin-1 ranges plus the Unicode separators the model lists). Unicode word characters beyond `[a-zA-Z0-9']` do not arise because the source's class is ASCII.
- The rest of `legal_processor.py` (document loading, question answering, the summarize chain, the vector store), `rag_ingest.py` apart from `chunk_text` (PDF reading, embeddings, ChromaDB), and all other route and data-generation files are I/O, external services or random generation.

## Findings

| source | as written | input that shows it | evidently intended | confidence | as-written member | corrected member |
|---|---|---|---|---|---|---|
| backend/app/utils/rag_ingest.py:97-104 | `start += chunk_size - overlap` does not advance when `chunk_size <= overlap`, so `while start < len(text)` never ends on a non-empty text | `chunk_text("abc", 5, 5)`: `start` stays 0 forever and the chunk list grows without end | the parameters are meant to satisfy `chunk_size > overlap`, which the only call site (rag_ingest.py:173, with 1000 and 200) does; the chunker should terminate, or reject other parameters | not executed | RagIngest.StuckWithoutStep | RagIngest.ChunkText |
