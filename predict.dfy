/** The regex-only baseline predictor (src/models/predict.py). */
module Predict {
  import opened Schemas
  import opened RegexFeatures

  /** One output row of the baseline. */
  datatype BaselineRow = BaselineRow(
    id: string, predLabel: int, predScore: real,
    hasCpf: bool, hasEmail: bool, hasPhone: bool)

  /** What the baseline writes for one record: the record's id, its regex
      score as the score (so a value in [0, 1]), label 1 exactly when that
      score reaches the threshold, and the three main flags of its signals. */
  function BaselineRowOf(rec: Record, threshold: real): (row: BaselineRow)
    ensures row.id == rec.id
    ensures row.predScore == SignalScore(Detect(rec.text))
    ensures 0.0 <= row.predScore <= 1.0
    ensures row.predLabel == 1 <==> row.predScore >= threshold
    ensures row.predLabel == 0 <==> row.predScore < threshold
    ensures row.hasCpf == Detect(rec.text).hasCpf
    ensures row.hasEmail == Detect(rec.text).hasEmail
    ensures row.hasPhone == Detect(rec.text).hasPhone
  {
    var s := Detect(rec.text);
    var score := SignalScore(s);
    ScoreOfDict(s);
    BaselineRow(rec.id, if score >= threshold then 1 else 0, score, s.hasCpf, s.hasEmail, s.hasPhone)
  }

  /** The body of the baseline loop for one record: the signal dictionary is
      scored by `regex_score` and its flags are read back by key. */
  method ScoreRecord(rec: Record, threshold: real) returns (row: BaselineRow)
    ensures row == BaselineRowOf(rec, threshold)
  {
    var sig := RegexSignals(rec.text);
    var score := RegexScore(sig);
    ScoreOfDict(Detect(rec.text));
    CpfEntry(Detect(rec.text));
    EmailEntry(Detect(rec.text));
    PhoneEntry(Detect(rec.text));
    var predLabel := if score >= threshold then 1 else 0;
    row := BaselineRow(rec.id, predLabel, score,
                       sig["has_cpf"].b, sig["has_email"].b, sig["has_phone"].b);
  }

  /** Scores every record by its regex score alone (see BaselineRowOf): no
      blend, no override, one row per record in input order, and no error path
      (no records, no rows). */
  method PredictBaseline(records: seq<Record>, threshold: real) returns (rows: seq<BaselineRow>)
    ensures |rows| == |records|
    ensures forall i :: 0 <= i < |rows| ==> rows[i] == BaselineRowOf(records[i], threshold)
  {
    rows := [];
    for i := 0 to |records|
      invariant |rows| == i
      invariant forall k :: 0 <= k < i ==> rows[k] == BaselineRowOf(records[k], threshold)
    {
      var row := ScoreRecord(records[i], threshold);
      rows := rows + [row];
    }
  }
}
