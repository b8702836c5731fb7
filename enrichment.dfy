/** `enrich_dataframe` of `src/logic.py`: copy the table, then add the `risk_level`,
    `anomaly_flag` and `confidence_score` columns one after another, the last one reading
    the anomaly column just written. A table is an array of rows; the two columns the
    enrichment reads are fields of a row and every other column (`timestamp` and
    `description` among them) is kept by name in `others`. */
module Enrichment {
  import opened Logic

  /** A value in a table cell. */
  datatype Cell = Label(text: string) | Number(value: real) | Flag(flag: bool) | Instant(time: int)

  datatype Row = Row(
    category: string,
    severityScore: real,
    others: map<string, Cell>)

  const CategoryColumn := "category"
  const SeverityColumn := "severity_score"

  /** The two typed columns are not also named in `others`, so each column has one value. */
  predicate WellFormed(row: Row)
  {
    CategoryColumn !in row.others && SeverityColumn !in row.others
  }

  const RiskLevelColumn := "risk_level"
  const AnomalyFlagColumn := "anomaly_flag"
  const ConfidenceColumn := "confidence_score"

  /** `df["risk_level"] = df["severity_score"].apply(calculate_risk_level)`, for one row. */
  function WithRiskLevel(row: Row): Row
  {
    row.(others := row.others[RiskLevelColumn := Label(CalculateRiskLevel(row.severityScore))])
  }

  /** `df["anomaly_flag"] = ... detect_anomaly(r["severity_score"], r["category"])`, for one row. */
  function WithAnomalyFlag(row: Row): Row
  {
    row.(others := row.others[AnomalyFlagColumn := Flag(DetectAnomaly(row.severityScore, row.category))])
  }

  /** The row's anomaly column holds a flag, as it does once `WithAnomalyFlag` has run. */
  predicate HasAnomalyFlag(row: Row)
  {
    AnomalyFlagColumn in row.others && row.others[AnomalyFlagColumn].Flag?
  }

  /** `df["confidence_score"] = ... compute_confidence(r["severity_score"], r["anomaly_flag"])`,
      for one row: it reads the anomaly column of the table being built. */
  function WithConfidence(row: Row): Row
    requires HasAnomalyFlag(row)
  {
    var anomaly := row.others[AnomalyFlagColumn].flag;
    row.(others := row.others[ConfidenceColumn := Number(ComputeConfidence(row.severityScore, anomaly))])
  }

  /** One row of the enriched table. */
  function EnrichRow(row: Row): Row
  {
    WithConfidence(WithAnomalyFlag(WithRiskLevel(row)))
  }

  /** What enrichment does to a row: the score and category stay, every other column
      stays, and the three derived columns hold the values computed from the row's score
      and category, the confidence using the freshly detected anomaly. A well-formed row
      stays well-formed. */
  lemma EnrichRowContents(row: Row)
    ensures var r := EnrichRow(row);
      && r.category == row.category && r.severityScore == row.severityScore
      && (WellFormed(row) ==> WellFormed(r))
      && r.others.Keys == row.others.Keys + {RiskLevelColumn, AnomalyFlagColumn, ConfidenceColumn}
      && (forall c :: c in row.others && c !in {RiskLevelColumn, AnomalyFlagColumn, ConfidenceColumn}
            ==> r.others[c] == row.others[c])
      && r.others[RiskLevelColumn] == Label(CalculateRiskLevel(row.severityScore))
      && r.others[AnomalyFlagColumn] == Flag(DetectAnomaly(row.severityScore, row.category))
      && r.others[ConfidenceColumn]
         == Number(ComputeConfidence(row.severityScore, DetectAnomaly(row.severityScore, row.category)))
  {
  }

  /** The derived columns depend on the row's score and category alone. */
  lemma EnrichRowLocal(a: Row, b: Row)
    requires a.severityScore == b.severityScore && a.category == b.category
    ensures EnrichRow(a).others[RiskLevelColumn] == EnrichRow(b).others[RiskLevelColumn]
    ensures EnrichRow(a).others[AnomalyFlagColumn] == EnrichRow(b).others[AnomalyFlagColumn]
    ensures EnrichRow(a).others[ConfidenceColumn] == EnrichRow(b).others[ConfidenceColumn]
  {
    EnrichRowContents(a);
    EnrichRowContents(b);
  }

  /** Enriching an enriched row changes nothing: the derived values are recomputed as the same. */
  lemma EnrichRowIdempotent(row: Row)
    ensures EnrichRow(EnrichRow(row)) == EnrichRow(row)
  {
    var once := EnrichRow(row);
    EnrichRowContents(row);
    EnrichRowContents(once);
    assert EnrichRow(once).others == once.others;
  }

  /** `enrich_dataframe`: a new table, as long as the input, whose every row is the
      enrichment of the input's row. The input is only read (the method modifies nothing). */
  method EnrichDataframe(rows: array<Row>) returns (enriched: array<Row>)
    ensures fresh(enriched)
    ensures enriched.Length == rows.Length
    ensures forall i :: 0 <= i < rows.Length ==> enriched[i] == EnrichRow(rows[i])
  {
    var n := rows.Length;
    enriched := new Row[n](i requires 0 <= i < n reads rows => rows[i]);
    for i := 0 to n
      invariant forall k :: 0 <= k < i ==> enriched[k] == WithRiskLevel(rows[k])
      invariant forall k :: i <= k < n ==> enriched[k] == rows[k]
    {
      enriched[i] := WithRiskLevel(enriched[i]);
    }
    for i := 0 to n
      invariant forall k :: 0 <= k < i ==> enriched[k] == WithAnomalyFlag(WithRiskLevel(rows[k]))
      invariant forall k :: i <= k < n ==> enriched[k] == WithRiskLevel(rows[k])
    {
      enriched[i] := WithAnomalyFlag(enriched[i]);
    }
    for i := 0 to n
      invariant forall k :: 0 <= k < i ==> enriched[k] == EnrichRow(rows[k])
      invariant forall k :: i <= k < n ==> enriched[k] == WithAnomalyFlag(WithRiskLevel(rows[k]))
    {
      enriched[i] := WithConfidence(enriched[i]);
    }
  }
}
