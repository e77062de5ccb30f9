# Personal-data flagger for access-to-information requests — a Dafny model

The modelled system flags free-text access-to-information requests that may
contain personal data (PII). Six fixed regular expressions detect signals in
a text: e-mail, CPF, phone, RG, postal code (CEP) and a two-word capitalised
name. A weighted sum of those signals, saturated at 1.0, is the regex score.
There are two predictors:

- The baseline predictor thresholds the regex score.
- The hybrid predictor blends a classifier probability with the regex
  score. It thresholds the blend, and a regex score of at least 0.35
  forces the label to 1. Its rows come out sorted by score.

A single runner chooses between the two predictors. Records are loaded from
a table by picking an id column and a text column from configured candidate
names. Two scripts build labelled training data by appending lines of fake
personal data to texts.

The modules follow the source files:

| module | file | models |
|---|---|---|
| `Regex` | `regex_engine.dfy` | a backtracking matcher that explores the six patterns in the order Python's `re` does: `search`, `findall` counts |
| `RegexFeatures` | `regex_features.dfy` | `regex_signals`, `regex_score` |
| `Predict` | `predict.dfy` | the baseline predictor |
| `PredictHybrid` | `predict_hybrid.dfy` | the hybrid predictor |
| `Run` | `run.dfy` | the runner |
| `LoadData` | `load_data.dfy` | `load_records` and its helpers |
| `SynthDataset` | `synth_dataset.dfy` | the synthetic labelled dataset |
| `Train` | `train.dfy` | the labelling loop of the supervised scaffold |
| `Schemas` | `schemas.dfy` | `Record` and the configured column candidates |
| `Strings` | `strings.dfy` | the Python `str` operations used: `strip`, `lower`, `join`, `str(int)`, plus a `split` used only to state round trips |
| `Wrappers` | `wrappers.dfy` | `Option` and `Result` |

Scores are exact `real` numbers. The signal dictionary is a `map<string,
Value>`, so the source's `.get` semantics are stated directly: a missing key
reads as false. Three kinds of input are parameters:

- Random choices are explicit draws.
- The classifier is a function.
- The table read from a file is a value.

## Model

| member | source | states |
|---|---|---|
| Regex.MatchFromCorrect | src/features/regex_features.py:6-11 | the backtracking matcher's result at a position is a span of the pattern there: each repetition takes between its minimum and maximum number of characters of its class, each group takes one alternative or, when optional, none, and each `\b` holds; it finds a match exactly when such a span exists |
| Regex.MatchesIffSpans | src/features/regex_features.py:15-20 | `search` finds the pattern exactly when a span of it exists at some position of the text |
| Regex.MatchesAreNonEmpty | src/features/regex_features.py:6-11 | a pattern with a top-level repetition of at least one character only yields matches that consume at least one character |
| Regex.Search | src/features/regex_features.py:15-20 | `search` finds the leftmost start at which the pattern matches, with that match's end; no earlier start matches; no result means no start matches |
| Regex.MatchesIffSomeStart | src/features/regex_features.py:15-20 | a pattern is found exactly when it matches at some position of the text |
| Regex.CountFrom | src/features/regex_features.py:21-23 | the `findall` count from a position is positive exactly when a search from that position succeeds |
| Regex.MatchesIffCounted | src/features/regex_features.py:15-23 | a pattern is found by `search` exactly when `findall` returns at least one match |
| RegexFeatures.RegexSignals | src/features/regex_features.py:13-24 | the dictionary has exactly the six flag keys and the three count keys; each flag is true iff `search` finds its pattern; each count is the number of `findall` matches of its pattern |
| RegexFeatures.PatternsNeverMatchEmpty | src/features/regex_features.py:6-11 | none of the six patterns ever matches the empty string, at any position of any text |
| RegexFeatures.Detect | src/features/regex_features.py:13-24 | each counted flag is set exactly when its count is positive (has_email/email_count, has_cpf/cpf_count, has_phone/phone_count) |
| RegexFeatures.AsDict | src/features/regex_features.py:14-24 | the signal dictionary has exactly the six flag keys and the three count keys |
| RegexFeatures.NineSignalKeys | src/features/regex_features.py:14-24 | every signal dictionary has exactly nine entries |
| RegexFeatures.AsDictFlags | src/features/regex_features.py:15-20 | reading each flag back through `.get` gives the detected flag |
| RegexFeatures.CpfEntry | src/models/predict.py:29 | `sig["has_cpf"]` is present and holds the CPF flag |
| RegexFeatures.EmailEntry | src/models/predict.py:30 | `sig["has_email"]` is present and holds the e-mail flag |
| RegexFeatures.PhoneEntry | src/models/predict.py:31 | `sig["has_phone"]` is present and holds the phone flag |
| RegexFeatures.RegexScore | src/features/regex_features.py:26-34 | the running sum over the six flags, clamped, equals the weight-table score and lies in [0, 1] |
| RegexFeatures.ScoreInUnitInterval | src/features/regex_features.py:27-34 | the score of any dictionary lies in [0, 1] |
| RegexFeatures.ScoreMonotone | src/features/regex_features.py:28-34 | if every flag set in one dictionary is set in another, the second scores at least as much |
| RegexFeatures.SetFlagNeverLowers | src/features/regex_features.py:28-34 | turning any flag on never lowers the score |
| RegexFeatures.ScoreIgnoresNonFlags | src/features/regex_features.py:28-33 | a key other than the six flags (the counts included), whatever its value, does not change the score |
| RegexFeatures.EmptySignalsScoreZero | src/features/regex_features.py:27-34 | missing keys read as false: the empty dictionary scores 0 |
| RegexFeatures.EmailOnlyScore | src/features/regex_features.py:29 | an e-mail alone scores 0.35 |
| RegexFeatures.CpfOnlyScore | src/features/regex_features.py:28 | a CPF alone scores 0.45 |
| RegexFeatures.CpfAndEmailScore | src/features/regex_features.py:28-29 | a CPF with an e-mail scores 0.80 |
| RegexFeatures.WeakSignalsScore | src/features/regex_features.py:31-33 | RG, CEP and name together score 0.35 |
| RegexFeatures.CpfEmailPhoneSaturates | src/features/regex_features.py:28-34 | CPF, e-mail and phone together saturate at exactly 1.0, whatever else is set |
| RegexFeatures.AllFlagsSaturate | src/features/regex_features.py:28-34 | all six flags add up to 1.40 and score exactly 1.0 |
| RegexFeatures.ScoreOfDict | src/features/regex_features.py:13-34 | scoring the dictionary of a signal set gives its field-wise score, which lies in [0, 1] |
| RegexFeatures.EmptyTextNoSignals | src/features/regex_features.py:13-24 | the empty text has every flag false and every count 0 |
| RegexFeatures.EmptyTextScoresZero | src/features/regex_features.py:13-34 | the empty text scores 0 |
| RegexFeatures.ElevenDigitsAreCpf | src/features/regex_features.py:7 | any eleven digits match the CPF pattern, because only the shape is checked and the check digits are not |
| Predict.BaselineRowOf | src/models/predict.py:22-32 | a baseline row carries the record's id and its regex score, which lies in [0, 1]; the label is 1 iff the score reaches the threshold and 0 iff it does not; the row carries the CPF, e-mail and phone flags |
| Predict.ScoreRecord | src/models/predict.py:22-32 | the loop body, which reads the flags back from the dictionary, produces the baseline row |
| Predict.PredictBaseline | src/models/predict.py:19-32 | one baseline row per record, in input order |
| PredictHybrid.Blend | src/models/predict_hybrid.py:69-70 | weight 1 gives the classifier probability and weight 0 gives the regex score |
| PredictHybrid.BlendIsConvex | src/models/predict_hybrid.py:69-70 | for a weight in [0, 1] the blend lies between its two inputs, so it lies in [0, 1] when both inputs do |
| PredictHybrid.Decide | src/models/predict_hybrid.py:69-77 | final score = blend; the label is 0/1 and is 0 iff the blend is under the threshold and the regex score is under 0.35; forced iff the regex score is ≥ 0.35; forced implies label 1 |
| PredictHybrid.OverrideWins | src/models/predict_hybrid.py:72-77 | a regex score ≥ 0.35 gives label 1 whatever the classifier probability, weight and threshold |
| PredictHybrid.NoOverrideBelowForce | src/models/predict_hybrid.py:74-77 | below 0.35 the label is the plain thresholded blend and the row is not forced |
| PredictHybrid.ThresholdAntitone | src/models/predict_hybrid.py:74 | raising the threshold never turns label 0 into label 1 |
| PredictHybrid.ForcedScenario | src/models/predict_hybrid.py:69-77 | classifier probability 0.1, regex score 0.35, weight 0.7 and threshold 0.25 give blend 0.175, label 1, forced |
| PredictHybrid.FeatureValue | src/models/predict_hybrid.py:50-54 | `injected_count` gives 0; a `has_` column gives 1.0 iff its flag is truthy and 0.0 iff not, a missing key counting as false; any other column gives its signal's numeric value when present and 0 when missing |
| PredictHybrid.BuildFeatureRow | src/models/predict_hybrid.py:49-55 | one cell per column, in column order, each the column's feature value |
| PredictHybrid.TrainingColumnsRow | src/models/train_hybrid.py:18-25 | with the training columns, a text's row is its CPF, e-mail, phone, RG and CEP flags as 1.0/0.0, followed by 0 |
| PredictHybrid.HybridRowOf | src/models/predict_hybrid.py:79-92 | a row carries the record's id, its regex score in [0, 1], and the classifier probability on its text and feature row; score, label and forced flag are the decision on those two; it carries the three main flags |
| PredictHybrid.UnsortedRows | src/models/predict_hybrid.py:79-92 | one row per record, in input order |
| PredictHybrid.HybridScoreBounded | src/models/predict_hybrid.py:69-70 | with a weight and a classifier probability in [0, 1], a row's predicted score lies in [0, 1] |
| PredictHybrid.InsertByScore | src/models/predict_hybrid.py:94 | inserting into score-sorted rows keeps them sorted, adds exactly the new row and keeps every upper bound the new row respects |
| PredictHybrid.SortByScore | src/models/predict_hybrid.py:94 | the output is in non-increasing score order and is a permutation of the input |
| PredictHybrid.ScoreText | src/models/predict_hybrid.py:45-61 | the loop body gives the text's regex score, its feature row and its three main flags |
| PredictHybrid.ScoreTexts | src/models/predict_hybrid.py:41-61 | for every text, in input order: the regex score, the feature row and the main flags |
| PredictHybrid.AssembledRow | src/models/predict_hybrid.py:79-92 | assembling the parts computed by the scoring loop gives the record's row |
| PredictHybrid.BuildRows | src/models/predict_hybrid.py:79-92 | one output row per id, in order, each assembled from its scores and flags |
| PredictHybrid.AssembledRows | src/models/predict_hybrid.py:41-92 | the rows built from the scoring loop's results are exactly the records' rows, in input order |
| PredictHybrid.PredictHybrid | src/models/predict_hybrid.py:30-94 | an error iff there are no records; otherwise one row per record, sorted by score from highest to lowest, and a permutation of the records' rows |
| Run.WithDefaults | src/run.py:13-16 | the defaults: the model path, mode `auto`, alpha 0.45, threshold 0.25 |
| Run.ChooseCommand | src/run.py:21-47 | `regex` gives the baseline; `hybrid` gives the hybrid predictor; `auto` gives the hybrid predictor iff the model file exists; input, output and threshold are always passed; model and alpha only to the hybrid predictor |
| Run.Argv | src/run.py:21-47 | the baseline's argument vector is exactly the interpreter, `-m src.models.predict`, input, output and threshold; the hybrid predictor's is the interpreter, `-m src.models.predict_hybrid`, input, model, output, alpha and threshold |
| Run.Dispatch | src/run.py:19-47 | the exit code is the child's exit code, for the exact command line of each mode |
| Run.AlphaOnlyForHybrid | src/run.py:21-23 | when the baseline runs, changing alpha leaves its command line unchanged |
| Run.ExplicitModeIgnoresModelFile | src/run.py:21-33 | in `regex` and `hybrid` mode, whether the model file exists does not matter |
| LoadData.NormalizeCol | src/io/load_data.py:13-14 | a normalised name is the lower-cased slice of the original between leading and trailing whitespace; it is no longer than the original, has no capitals, and neither starts nor ends with whitespace |
| LoadData.NormalizeIdempotent | src/io/load_data.py:13-14 | normalising twice is the same as normalising once |
| LoadData.NormIndex | src/io/load_data.py:18 | every value of the dictionary is one of the columns, and its normalised name is its key |
| LoadData.NormIndexKeys | src/io/load_data.py:18 | the normalised-name dictionary has a key exactly for each normalised column name |
| LoadData.NormIndexValues | src/io/load_data.py:18 | each key maps to the last column with that normalised name |
| LoadData.PickFrom | src/io/load_data.py:19-22 | the first candidate present in the dictionary, looked up; nothing iff no candidate is present |
| LoadData.PickColumn | src/io/load_data.py:17-22 | nothing iff no candidate matches a column; otherwise the result is an original column whose normalised name is a candidate, namely the last column matching the first candidate that matches |
| LoadData.RFind | src/io/load_data.py:27 | the last index of the character, or -1 if there is none |
| LoadData.FileName | src/io/load_data.py:27 | the final path component has no `/`; it is the whole path, or the text after the path's last `/` |
| LoadData.Suffix | src/io/load_data.py:27 | the suffix is empty, or a dot followed by at least one character, with no further dot and no `/`; a non-empty suffix is a proper tail of the file name; it is empty exactly when the name has no dot after its first character or ends with a dot |
| LoadData.CellText | src/io/load_data.py:67 | a missing cell (NaN or `None`) gives "" and any other cell its `str` |
| LoadData.ColumnIndex | src/io/load_data.py:66-67 | the position of a column holds that column |
| LoadData.WithColumn | src/io/load_data.py:61 | the table stays well formed with the same rows; the column list is unchanged when the column exists and gains it at the end otherwise; the column holds the given cells, and every other column keeps its cells |
| LoadData.IndexStrings | src/io/load_data.py:60-61 | the generated ids are "0", "1", … in row order |
| LoadData.TableRecords | src/io/load_data.py:59-69 | one record per row, in row order; the id is the `str` of the row's id cell, or the row number when there is no id column; the text is the row's text cell, "" when missing |
| LoadData.BuildRecords | src/io/load_data.py:64-69 | the loop gives one record per row, in order, with the row's id and text |
| LoadData.GeneratedColumnIsNotText | src/io/load_data.py:59-62 | the generated `__id__` column can never be the chosen text column |
| LoadData.GeneratedColumnRecords | src/io/load_data.py:59-67 | reading ids from the generated `__id__` column gives the row numbers as ids and leaves every text unchanged |
| LoadData.RecordsOfTable | src/io/load_data.py:59-69 | with or without the generated id column, the records are the table's records for the chosen columns |
| LoadData.LoadRecords | src/io/load_data.py:25-69 | an unsupported suffix is an error; an empty table gives no records; no text column is an error; otherwise one record per row, with the picked id column (or the row number) and the picked text column |
| LoadData.GeneratedIds | src/io/load_data.py:59-67 | without an id column the ids are the row numbers and pairwise distinct, and a missing text reads as "" |
| SynthDataset.InjectionLines | src/models/make_synth_dataset.py:29-41 | one line per sampled kind, in order, each the kind's label followed by one of its values |
| SynthDataset.InjectPii | src/models/make_synth_dataset.py:21-44 | the loop gives the injected text; the metadata lists the sampled kinds and their count, which is between 1 and 3 |
| SynthDataset.NoNewlineInKind | src/models/make_synth_dataset.py:13-18 | no fake value and no label contains a newline |
| SynthDataset.InjectedTextSplits | src/models/make_synth_dataset.py:43 | the original text is a prefix, followed by a newline; what follows splits at newlines back into exactly the injected lines |
| SynthDataset.TypesStringSplits | src/models/make_synth_dataset.py:77 | the `injected_types` cell splits at commas back into the kind names, in sample order |
| SynthDataset.SynthRowOf | src/models/make_synth_dataset.py:61-85 | a row carries the record's id; its label is 1 iff the record was drawn for injection and 0 iff not |
| SynthDataset.SynthRowFacts | src/models/make_synth_dataset.py:61-85 | label 1 iff injected; an injected row has the injected text and 1–3 kinds with their names; an untouched row has its text, count 0 and no types; the flags are the signals of the row's own text |
| SynthDataset.MakeRow | src/models/make_synth_dataset.py:62-85 | the loop body gives the record's row |
| SynthDataset.MakeSynthDataset | src/models/make_synth_dataset.py:56-85 | an error iff there are no records; otherwise one row per record, in order |
| Train.InjectPii | src/models/train.py:20-26 | the original text, a newline, then the kind's label and the drawn value |
| Train.OneLineAppended | src/models/train.py:20-26 | exactly one line is appended, made of the label and a value of the chosen kind |
| Train.LabelTexts | src/models/train.py:39-49 | an error iff there are no texts; otherwise X and y have one entry per text, in order; y is 1 iff the text was injected, and X holds the injected or unchanged text |

## Left out

- Python `re` in full. `\d` is ASCII digits only. `\b`, `\w` and `\s` use Latin-1 word characters and Python's whitespace set, not full Unicode. IGNORECASE folds only ASCII letters.
- Regex.CountFrom: after an empty match it resumes one character later, which is not Python 3.7's rule (a non-empty match may start where the empty one did). `RegexFeatures.PatternsNeverMatchEmpty` proves no empty match occurs for the six patterns, so their counts are unaffected.
- RegexFeatures.NamePattern: the name classes in src/features/regex_features.py:11 hold mis-encoded accented letters, and the model keeps only their ASCII part (`[A-Z]`, `[a-z]`).
- Floating point. Scores, weights, the blend and the thresholds are exact reals, so IEEE rounding is not modelled. For example, 0.45 + 0.35 is exactly 0.80 here.
- PredictHybrid.SortByScore: pandas' default `sort_values` is an unstable quicksort. The model sorts stably, and the contract states only order and permutation, which both sorts satisfy.
- The TF-IDF vectoriser and the logistic regression. The classifier is a parameter that gives the positive-class probability of a text and its feature row.
- Loading the joblib bundle. Its `regex_feature_cols` list is a parameter; the training list is `RegexFeatureCols`.
- Reading files. Excel and CSV parsing, the JSON-lines parser and its skipping of blank lines are not modelled. The table is given as a value, which is empty when the file held nothing.
- LoadData.Cell: only string, integer, NaN and `None` cells are modelled, not float cells or their `str` formatting. pandas turns an integer column that has a missing value into floats. For example, JSON lines `{"id": 1, "texto": "a"}` and `{"texto": "b"}` give the ids "1.0" and "nan"; the model gives "1" and "nan", so only the first id differs. Integer ids next to an all-empty text column are upcast the same way.
- LoadData.WellFormed: a table whose raw column names repeat is not modelled.
- LoadData.Suffix: handles only `/` as the separator, with no drive letters or other path normalisation.
- LoadData.FileName: `Path` drops a trailing `/` before taking the name; the model does not, so `a/b/` gives an empty name.
- Run.Dispatch: formatting a float with `str` is the `show` parameter; `str(Path(model))` normalisation is not modelled and the model path is passed as given.
- Run.Dispatch: whether the model file exists, and the child process, are parameters.
- Argument parsing, directory creation, CSV writing and console output of every script.
- Randomness. `rng.random() < pos_ratio`, `rng.choice` and `rng.sample` are replaced by explicit draws, so the seed and the generator's sequence are not modelled.
- The train/validation split and model fitting in src/models/train.py:51-60.
- src/models/report_preds.py and the training step of src/models/train_hybrid.py are not part of this model.
- Strings.Lower: lower-cases ASCII and Latin-1 capitals only, not all of Unicode.

## Notes

- The regex detection is one matcher run over six named patterns, as the source does; the patterns are separate constants.
- In the source, the override threshold 0.35 is a constant inside the hybrid predictor (src/models/predict_hybrid.py:72), not a parameter of a decision function. The model follows the code.
- The three entry points use different defaults: threshold 0.35 for the baseline, alpha 0.70 and threshold 0.30 for the hybrid predictor, alpha 0.45 and threshold 0.25 for the runner. The predictors' defaults belong to their argument parsing, which is not modelled, so both take alpha and threshold as parameters; the runner's defaults are `Run.WithDefaults`.
