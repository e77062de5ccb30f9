/** The hybrid predictor (src/models/predict_hybrid.py): a classifier
    probability blended with the regex score, thresholded, with the regex
    score able to force a positive label. */
module PredictHybrid {
  import opened Wrappers
  import opened Strings
  import opened Schemas
  import opened RegexFeatures

  /** A regex score at or above this forces the label to 1. */
  const RegexForceThreshold: real := 0.35

  /** The numeric feature columns the hybrid model is trained with
      (src/models/train_hybrid.py), in their order. */
  const RegexFeatureCols: seq<string> :=
    ["has_cpf", "has_email", "has_phone", "has_rg", "has_zip", "injected_count"]

  /** The final score: the classifier's weight `alpha` on the classifier
      probability, the rest on the regex score. */
  function Blend(alpha: real, ml: real, rs: real): (f: real)
    ensures alpha == 1.0 ==> f == ml
    ensures alpha == 0.0 ==> f == rs
  {
    alpha * ml + (1.0 - alpha) * rs
  }


  lemma ScaleNonNegative(a: real, x: real)
    requires a >= 0.0 && x >= 0.0
    ensures a * x >= 0.0
  {
  }

  /** For a weight in [0, 1] the blend is a convex combination: it lies between
      its two inputs, so two scores in [0, 1] blend to a score in [0, 1]. */
  lemma BlendIsConvex(alpha: real, ml: real, rs: real)
    requires 0.0 <= alpha <= 1.0
    ensures Min(ml, rs) <= Blend(alpha, ml, rs) <= Max(ml, rs)
    ensures 0.0 <= ml <= 1.0 && 0.0 <= rs <= 1.0 ==> 0.0 <= Blend(alpha, ml, rs) <= 1.0
  {
    var lo, hi := Min(ml, rs), Max(ml, rs);
    var f := Blend(alpha, ml, rs);
    ScaleNonNegative(alpha, ml - lo);
    ScaleNonNegative(1.0 - alpha, rs - lo);
    assert f - lo == alpha * (ml - lo) + (1.0 - alpha) * (rs - lo);
    ScaleNonNegative(alpha, hi - ml);
    ScaleNonNegative(1.0 - alpha, hi - rs);
    assert hi - f == alpha * (hi - ml) + (1.0 - alpha) * (hi - rs);
  }

  /** The decision for one record. */
  datatype Decision = Decision(finalScore: real, predLabel: int, forced: bool)

  /** Blend, threshold, then the regex override. The label is 0 exactly when
      both the blend is under the threshold and the regex score is under the
      force threshold; `forced` is exactly the override condition, and the
      override touches only the label, never the final score. */
  function Decide(ml: real, rs: real, alpha: real, threshold: real): (d: Decision)
    ensures d.finalScore == Blend(alpha, ml, rs)
    ensures d.predLabel == 0 || d.predLabel == 1
    ensures d.predLabel == 0 <==> d.finalScore < threshold && rs < RegexForceThreshold
    ensures d.forced <==> rs >= RegexForceThreshold
    ensures d.forced ==> d.predLabel == 1
  {
    var f := Blend(alpha, ml, rs);
    var thresholded := if f >= threshold then 1 else 0;
    var predLabel := if rs >= RegexForceThreshold then 1 else thresholded;
    Decision(f, predLabel, rs >= RegexForceThreshold)
  }

  /** The override cannot be undone by the classifier: once the regex score
      reaches 0.35, any classifier probability, weight and threshold give 1. */
  lemma OverrideWins(ml1: real, ml2: real, rs: real, alpha1: real, alpha2: real, thr1: real, thr2: real)
    requires rs >= RegexForceThreshold
    ensures Decide(ml1, rs, alpha1, thr1).predLabel == Decide(ml2, rs, alpha2, thr2).predLabel == 1
  {
  }

  /** Under the force threshold the label is the plain thresholded blend. */
  lemma NoOverrideBelowForce(ml: real, rs: real, alpha: real, threshold: real)
    requires rs < RegexForceThreshold
    ensures Decide(ml, rs, alpha, threshold).predLabel == (if Blend(alpha, ml, rs) >= threshold then 1 else 0)
    ensures !Decide(ml, rs, alpha, threshold).forced
  {
  }

  /** Raising the threshold never turns a negative into a positive. */
  lemma ThresholdAntitone(ml: real, rs: real, alpha: real, t1: real, t2: real)
    requires t1 <= t2
    ensures Decide(ml, rs, alpha, t2).predLabel <= Decide(ml, rs, alpha, t1).predLabel
  {
  }

  /** A weak classifier cannot hide an obvious regex hit: with probability 0.1
      and regex score 0.35 the blend is 0.175, under the 0.25 threshold, yet
      the label is 1 and marked as forced. */
  lemma ForcedScenario()
    ensures Decide(0.1, 0.35, 0.7, 0.25) == Decision(0.175, 1, true)
  {
  }

  /** A signal value as the float numpy stores it. */
  function NumericValue(v: Value): real
  {
    match v
    case Flag(b) => if b then 1.0 else 0.0
    case Num(n) => n as real
  }

  /** One cell of the numeric feature row: `injected_count` is always 0, a
      `has_` column is 1.0 or 0.0 by the truthiness of its signal (missing
      counts as false), any other column is its signal value or 0. */
  function FeatureValue(sig: Signals, c: string): (x: real)
    ensures c == "injected_count" ==> x == 0.0
    ensures c != "injected_count" && StartsWith(c, "has_") ==> (x == 1.0 <==> FlagOf(sig, c))
    ensures c != "injected_count" && StartsWith(c, "has_") ==> (x == 0.0 <==> !FlagOf(sig, c))
    ensures c != "injected_count" && !StartsWith(c, "has_") && c !in sig ==> x == 0.0
    ensures c != "injected_count" && !StartsWith(c, "has_") && c in sig ==> x == NumericValue(sig[c])
  {
    if c == "injected_count" then 0.0
    else if StartsWith(c, "has_") then (if FlagOf(sig, c) then 1.0 else 0.0)
    else if c in sig then NumericValue(sig[c])
    else 0.0
  }

  /** The feature row: one cell per column, in column order. */
  function FeatureRow(sig: Signals, cols: seq<string>): (row: seq<real>)
    ensures |row| == |cols|
  {
    seq(|cols|, i requires 0 <= i < |cols| => FeatureValue(sig, cols[i]))
  }

  /** The inner loop that builds the feature row of one text. */
  method BuildFeatureRow(sig: Signals, cols: seq<string>) returns (row: seq<real>)
    ensures |row| == |cols|
    ensures forall i :: 0 <= i < |cols| ==> row[i] == FeatureValue(sig, cols[i])
  {
    row := [];
    for i := 0 to |cols|
      invariant |row| == i
      invariant forall k :: 0 <= k < i ==> row[k] == FeatureValue(sig, cols[k])
    {
      row := row + [FeatureValue(sig, cols[i])];
    }
  }

  /** With the training columns, the row of a text's signals is its five
      flags as 1.0/0.0 followed by a constant 0 for `injected_count`. */
  lemma TrainingColumnsRow(s: SignalSet)
    ensures FeatureRow(AsDict(s), RegexFeatureCols)
         == [Weighted(s.hasCpf, 1.0), Weighted(s.hasEmail, 1.0), Weighted(s.hasPhone, 1.0),
             Weighted(s.hasRg, 1.0), Weighted(s.hasZip, 1.0), 0.0]
  {
    var sig := AsDict(s);
    AsDictFlags(s);
    var row := FeatureRow(sig, RegexFeatureCols);
    assert StartsWith("has_cpf", "has_") && StartsWith("has_email", "has_") && StartsWith("has_phone", "has_");
    assert StartsWith("has_rg", "has_") && StartsWith("has_zip", "has_");
    assert row[0] == Weighted(s.hasCpf, 1.0);
    assert row[1] == Weighted(s.hasEmail, 1.0);
    assert row[2] == Weighted(s.hasPhone, 1.0);
    assert row[3] == Weighted(s.hasRg, 1.0);
    assert row[4] == Weighted(s.hasZip, 1.0);
    assert row[5] == 0.0;
  }

  /** The classifier: the positive-class probability of a text together with
      its numeric feature row. */
  type Classifier = (string, seq<real>) -> real

  /** One output row of the hybrid predictor. */
  datatype HybridRow = HybridRow(
    id: string, predLabel: int, predScore: real, mlScore: real, regexScore: real,
    hasCpf: bool, hasEmail: bool, hasPhone: bool, forcedByRegex: bool)

  /** An output row from its parts: the decision on the classifier and regex
      scores, with the id and the three main flags alongside. */
  function AssembleRow(id: string, ml: real, rs: real, main: (bool, bool, bool), alpha: real, threshold: real): HybridRow
  {
    var d := Decide(ml, rs, alpha, threshold);
    HybridRow(id, d.predLabel, d.finalScore, ml, rs, main.0, main.1, main.2, d.forced)
  }

  /** The row the hybrid predictor produces for one record, before sorting:
      the record's id, its classifier probability on its own text and feature
      row, its regex score, the decision on those two, and its three main
      flags. */
  function HybridRowOf(rec: Record, cols: seq<string>, model: Classifier, alpha: real, threshold: real): (row: HybridRow)
    ensures row.id == rec.id
    ensures row.regexScore == SignalScore(Detect(rec.text)) && 0.0 <= row.regexScore <= 1.0
    ensures row.mlScore == model(rec.text, FeatureRow(RegexSignals(rec.text), cols))
    ensures Decide(row.mlScore, row.regexScore, alpha, threshold)
         == Decision(row.predScore, row.predLabel, row.forcedByRegex)
    ensures (row.hasCpf, row.hasEmail, row.hasPhone) == MainFlags(Detect(rec.text))
  {
    ScoreOfDict(Detect(rec.text));
    AssembleRow(rec.id, model(rec.text, FeatureRow(RegexSignals(rec.text), cols)),
                SignalScore(Detect(rec.text)), MainFlags(Detect(rec.text)), alpha, threshold)
  }

  /** The rows of all records, in input order. */
  function UnsortedRows(records: seq<Record>, cols: seq<string>, model: Classifier, alpha: real, threshold: real): (rows: seq<HybridRow>)
    ensures |rows| == |records|
    ensures forall i :: 0 <= i < |records| ==> rows[i] == HybridRowOf(records[i], cols, model, alpha, threshold)
  {
    seq(|records|, i requires 0 <= i < |records| => HybridRowOf(records[i], cols, model, alpha, threshold))
  }

  /** With a weight in [0, 1] and a classifier probability in [0, 1], the
      predicted score of a row is in [0, 1]. */
  lemma HybridScoreBounded(rec: Record, cols: seq<string>, model: Classifier, alpha: real, threshold: real)
    requires 0.0 <= alpha <= 1.0
    requires 0.0 <= model(rec.text, FeatureRow(RegexSignals(rec.text), cols)) <= 1.0
    ensures 0.0 <= HybridRowOf(rec, cols, model, alpha, threshold).predScore <= 1.0
  {
    var row := HybridRowOf(rec, cols, model, alpha, threshold);
    BlendIsConvex(alpha, row.mlScore, row.regexScore);
  }

  /** Rows in non-increasing order of predicted score. */
  predicate SortedByScore(rows: seq<HybridRow>)
  {
    forall i, j :: 0 <= i < j < |rows| ==> rows[i].predScore >= rows[j].predScore
  }

  /** Every row scores at most `bound`. */
  predicate AllAtMost(rows: seq<HybridRow>, bound: real)
  {
    forall i :: 0 <= i < |rows| ==> rows[i].predScore <= bound
  }

  /** A row that scores at least as much as every row of a sorted sequence
      can head it. */
  lemma ConsSorted(x: HybridRow, rows: seq<HybridRow>)
    requires SortedByScore(rows) && AllAtMost(rows, x.predScore)
    ensures SortedByScore([x] + rows)
  {
  }

  /** A bound holds for `[x] + rows` exactly when it holds for `x` and for
      `rows`. */
  lemma ConsBound(x: HybridRow, rows: seq<HybridRow>)
    ensures forall bound: real :: AllAtMost([x] + rows, bound) <==> x.predScore <= bound && AllAtMost(rows, bound)
  {
    forall bound: real
      ensures AllAtMost([x] + rows, bound) <==> x.predScore <= bound && AllAtMost(rows, bound)
    {
      if x.predScore <= bound && AllAtMost(rows, bound) {
        forall i | 0 <= i < |[x] + rows|
          ensures ([x] + rows)[i].predScore <= bound
        {
          if i > 0 { assert ([x] + rows)[i] == rows[i - 1]; }
        }
      }
      if AllAtMost([x] + rows, bound) {
        assert ([x] + rows)[0] == x;
        forall i | 0 <= i < |rows|
          ensures rows[i].predScore <= bound
        {
          assert rows[i] == ([x] + rows)[i + 1];
        }
      }
    }
  }

  /** Inserts a row before the first row whose score is at most its own. */
  function InsertByScore(r: HybridRow, rows: seq<HybridRow>): (out: seq<HybridRow>)
    requires SortedByScore(rows)
    ensures SortedByScore(out)
    ensures multiset(out) == multiset(rows) + multiset{r}
    ensures |out| == |rows| + 1
    ensures forall bound: real :: AllAtMost(rows, bound) && r.predScore <= bound ==> AllAtMost(out, bound)
  {
    if rows == [] then [r]
    else if r.predScore >= rows[0].predScore then [r] + rows
    else
      assert AllAtMost(rows[1..], rows[0].predScore);
      var rest := InsertByScore(r, rows[1..]);
      ConsSorted(rows[0], rest);
      ConsBound(rows[0], rows[1..]);
      ConsBound(rows[0], rest);
      assert rows == [rows[0]] + rows[1..];
      [rows[0]] + rest
  }

  /** `sort_values("pred_score", ascending=False)`: the same rows, in
      non-increasing order of predicted score (rows with equal scores keep
      their input order). */
  function SortByScore(rows: seq<HybridRow>): (out: seq<HybridRow>)
    ensures SortedByScore(out)
    ensures multiset(out) == multiset(rows)
    ensures |out| == |rows|
  {
    if rows == [] then []
    else
      assert rows == [rows[0]] + rows[1..];
      InsertByScore(rows[0], SortByScore(rows[1..]))
  }

  /** The three flags the output rows carry. */
  function MainFlags(s: SignalSet): (bool, bool, bool)
  {
    (s.hasCpf, s.hasEmail, s.hasPhone)
  }

  /** The regex score, feature row and main flags of one text. */
  function TextScores(t: string, cols: seq<string>): (real, seq<real>, (bool, bool, bool))
  {
    (SignalScore(Detect(t)), FeatureRow(RegexSignals(t), cols), MainFlags(Detect(t)))
  }

  /** The body of the scoring loop for one text: its signal dictionary is
      scored by `regex_score`, turned into a feature row, and its three main
      flags are read back by key. */
  method ScoreText(t: string, cols: seq<string>) returns (rs: real, row: seq<real>, main: (bool, bool, bool))
    ensures rs == SignalScore(Detect(t))
    ensures row == FeatureRow(RegexSignals(t), cols)
    ensures main == MainFlags(Detect(t))
  {
    var sig := RegexSignals(t);
    rs := RegexScore(sig);
    ScoreOfDict(Detect(t));
    row := BuildFeatureRow(sig, cols);
    CpfEntry(Detect(t));
    EmailEntry(Detect(t));
    PhoneEntry(Detect(t));
    main := (sig["has_cpf"].b, sig["has_email"].b, sig["has_phone"].b);
  }

  /** The scoring loop over the texts: each text's regex score, its feature
      row and its three main flags, in input order. */
  method ScoreTexts(records: seq<Record>, cols: seq<string>)
    returns (regexScores: seq<real>, feats: seq<seq<real>>, mainSignals: seq<(bool, bool, bool)>)
    ensures |regexScores| == |feats| == |mainSignals| == |records|
    ensures forall i :: 0 <= i < |records| ==> regexScores[i] == SignalScore(Detect(records[i].text))
    ensures forall i :: 0 <= i < |records| ==> feats[i] == FeatureRow(RegexSignals(records[i].text), cols)
    ensures forall i :: 0 <= i < |records| ==> mainSignals[i] == MainFlags(Detect(records[i].text))
  {
    regexScores, feats, mainSignals := [], [], [];
    for i := 0 to |records|
      invariant |regexScores| == |feats| == |mainSignals| == i
      invariant forall k :: 0 <= k < i ==> (regexScores[k], feats[k], mainSignals[k]) == TextScores(records[k].text, cols)
    {
      var rs, row, main := ScoreText(records[i].text, cols);
      assert (rs, row, main) == TextScores(records[i].text, cols);
      regexScores := regexScores + [rs];
      feats := feats + [row];
      mainSignals := mainSignals + [main];
    }
  }

  /** Assembling a record's parts, computed as the scoring loop computes them,
      gives that record's row. */
  lemma AssembledRow(rec: Record, cols: seq<string>, model: Classifier, alpha: real, threshold: real,
                     rs: real, row: seq<real>, main: (bool, bool, bool))
    requires rs == SignalScore(Detect(rec.text))
    requires row == FeatureRow(RegexSignals(rec.text), cols)
    requires main == MainFlags(Detect(rec.text))
    ensures AssembleRow(rec.id, model(rec.text, row), rs, main, alpha, threshold)
         == HybridRowOf(rec, cols, model, alpha, threshold)
  {
  }

  /** The output loop: one row per record, in input order, assembled from the
      scores and flags of the scoring loop. */
  method BuildRows(ids: seq<string>, alpha: real, threshold: real,
                   regexScores: seq<real>, mlScores: seq<real>, mainSignals: seq<(bool, bool, bool)>)
    returns (outRows: seq<HybridRow>)
    requires |regexScores| == |mlScores| == |mainSignals| == |ids|
    ensures |outRows| == |ids|
    ensures forall i :: 0 <= i < |ids| ==>
      outRows[i] == AssembleRow(ids[i], mlScores[i], regexScores[i], mainSignals[i], alpha, threshold)
  {
    outRows := [];
    for i := 0 to |ids|
      invariant |outRows| == i
      invariant forall k :: 0 <= k < i ==>
        outRows[k] == AssembleRow(ids[k], mlScores[k], regexScores[k], mainSignals[k], alpha, threshold)
    {
      outRows := outRows + [AssembleRow(ids[i], mlScores[i], regexScores[i], mainSignals[i], alpha, threshold)];
    }
  }

  /** The rows assembled from the scoring loop's results are the records' rows. */
  lemma AssembledRows(records: seq<Record>, cols: seq<string>, model: Classifier, alpha: real, threshold: real,
                      regexScores: seq<real>, feats: seq<seq<real>>, mainSignals: seq<(bool, bool, bool)>,
                      outRows: seq<HybridRow>)
    requires |regexScores| == |feats| == |mainSignals| == |outRows| == |records|
    requires forall i :: 0 <= i < |records| ==> regexScores[i] == SignalScore(Detect(records[i].text))
    requires forall i :: 0 <= i < |records| ==> feats[i] == FeatureRow(RegexSignals(records[i].text), cols)
    requires forall i :: 0 <= i < |records| ==> mainSignals[i] == MainFlags(Detect(records[i].text))
    requires forall i :: 0 <= i < |records| ==>
      outRows[i] == AssembleRow(records[i].id, model(records[i].text, feats[i]), regexScores[i], mainSignals[i], alpha, threshold)
    ensures outRows == UnsortedRows(records, cols, model, alpha, threshold)
  {
    forall i | 0 <= i < |records|
      ensures outRows[i] == HybridRowOf(records[i], cols, model, alpha, threshold)
    {
      AssembledRow(records[i], cols, model, alpha, threshold, regexScores[i], feats[i], mainSignals[i]);
    }
  }

  /** Why the hybrid predictor stops without output. */
  datatype HybridError = EmptyInput

  /** The hybrid predictor over loaded records. An empty input is rejected
      before any scoring. Otherwise the output is exactly the rows of the
      records (one per record, each carrying its record's id), sorted by
      predicted score from highest to lowest. */
  method PredictHybrid(records: seq<Record>, cols: seq<string>, model: Classifier, alpha: real, threshold: real)
    returns (result: Result<seq<HybridRow>, HybridError>)
    ensures result.Err? <==> records == []
    ensures result.Ok? ==> |result.value| == |records|
    ensures result.Ok? ==> SortedByScore(result.value)
    ensures result.Ok? ==> multiset(result.value) == multiset(UnsortedRows(records, cols, model, alpha, threshold))
  {
    if records == [] {
      return Err(EmptyInput);
    }
    var regexScores, feats, mainSignals := ScoreTexts(records, cols);
    var mlScores := seq(|records|, i requires 0 <= i < |records| => model(records[i].text, feats[i]));
    var ids := seq(|records|, i requires 0 <= i < |records| => records[i].id);
    var outRows := BuildRows(ids, alpha, threshold, regexScores, mlScores, mainSignals);
    AssembledRows(records, cols, model, alpha, threshold, regexScores, feats, mainSignals, outRows);
    return Ok(SortByScore(outRows));
  }
}
