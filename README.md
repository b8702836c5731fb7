# Risk scoring and recommendation engine, modelled in Dafny

This project models the decision logic of a risk-signal dashboard: the engine in
`src/logic.py` and the column check in `src/data.py`.

- **Scoring.** A severity score is classified into a risk level (Low, Medium, High,
  Critical). It is flagged as an anomaly against a per-category threshold with a global
  0.9 cut-off. It gets a confidence value: an affine formula, clamped to [0.55, 0.95] and
  rounded to two decimals.
- **Lookups.** Three lookups with fallback values give the enterprise impact, the owner
  team and the SLA.
- **Texts.** Two text builders write the explanation, which quotes the redacted
  description, and the recommended intervention, which gains an escalation clause for
  anomalies.
- **Redaction.** The redactor runs two regular-expression substitutions: e-mail
  addresses first, then phone numbers.
- **Enrichment.** `enrich_dataframe` copies a table and adds the three derived columns,
  one after another.
- **Validation.** `validate_dataframe` checks that the four required columns (timestamp,
  category, severity_score, description) are present. Otherwise its message lists the missing ones, sorted and joined with ", ".

Modules, one per file:

- `Logic` (`logic.dfy`): the pure functions of `src/logic.py` and their properties.
- `Enrichment` (`enrichment.dfy`): `enrich_dataframe`. It is a method that builds a new
  array of rows and fills in the three columns in three loops. It has no `modifies`
  clause, so the input array is left untouched.
- `Data` (`data.dfy`): `validate_dataframe` of `src/data.py`.
- `Decimal` (`decimal.dfy`): Python's `round(x, 2)` and `f"{x:.2f}"`. Both round the exact
  value to the nearest hundredth, ties to even.
- `Regex` (`regex.dfy`): just enough of Python's `re` for the two redaction patterns. It
  has greedy bounded repetition, optional groups and backtracking. Backtracking is
  modelled as the list of all match ends in the order the matcher tries them.
  `re.sub` is modelled as a left-to-right scan.
- `StringOrder` (`string_order.dfy`): Python's `str` ordering and `sorted`.
- `Text` (`text.dfy`): substrings, concatenation of f-string pieces, and `", ".join`
  together with its inverse.

Scores are Dafny `real`s. Risk levels and categories stay strings, so that keys outside
the tables keep their fallback behaviour.

## Model

| member | source | states |
|---|---|---|
| `Logic.CalculateRiskLevel` | src/logic.py:5-14 | total on every real; Low exactly below 0.35, Medium exactly on [0.35, 0.6), High exactly on [0.6, 0.8), Critical exactly from 0.8 up |
| `Logic.RiskLevelMonotone` | src/logic.py:5-14 | a higher score never gives a lower level in the order Low < Medium < High < Critical |
| `Logic.DetectAnomaly` | src/logic.py:17-30 | anomalous exactly when the score reaches the category's threshold (0.80 for unknown categories); the 0.9 cut-off makes any category anomalous |
| `Logic.AnomalyThresholdTable` | src/logic.py:17-29 | fraud 0.75, misinformation 0.78, service_load 0.85, mental_health and every unknown category 0.80 |
| `Logic.AnomalyExamples` | src/logic.py:25-30 | (0.79, fraud) is an anomaly, (0.79, service_load) is not, and a score of 0.9 is one for every category |
| `Logic.AnomalyMonotone` | src/logic.py:25-30 | raising the score never clears the anomaly flag |
| `Logic.ClampedConfidence` | src/logic.py:35-38 | the clamped confidence lies in [0.55, 0.95] and equals the affine base whenever the base is already in range |
| `Logic.ComputeConfidence` | src/logic.py:33-38 | after rounding the confidence still lies in [0.55, 0.95] and is a whole number of hundredths |
| `Logic.ClampedConfidenceMonotone` | src/logic.py:35-38 | the clamped value is non-decreasing in the score |
| `Logic.ConfidenceMonotone` | src/logic.py:33-38 | the rounded confidence is non-decreasing in the score, and the anomaly flag never lowers it |
| `Logic.ConfidenceExamples` | src/logic.py:33-38 | scores 0 and 1 give 0.55 and 0.90 without an anomaly, 0.60 and 0.95 with one |
| `Logic.ConfidenceTies` | src/logic.py:35-38 | unflagged scores 0.1, 0.3, 0.5, 0.7 and 0.9 clamp to exact half-hundredths 0.585, 0.655, 0.725, 0.795 and 0.865, which round half-even to 0.58, 0.66, 0.72, 0.80 and 0.86; flagged 0.9 clamps to 0.915 and rounds to 0.92 |
| `Logic.PatternMinimums` | src/logic.py:43-44 | every e-mail match holds an '@'; every phone match holds at least 2+3+3 = 8 digits |
| `Logic.MatchesConsumeText` | src/logic.py:43-44 | neither pattern matches the empty string |
| `Logic.RedactEmails` | src/logic.py:43 | the e-mail substitution: `re.sub` of the e-mail pattern with "[REDACTED_EMAIL]"; properties in `RedactEmailsNeedsAt` and `RedactEmailsSample` |
| `Logic.RedactPhones` | src/logic.py:44 | the phone substitution: `re.sub` of the phone pattern with "[REDACTED_PHONE]"; properties in `RedactPhonesNeedsEightDigits` and `RedactPhonesSample` |
| `Logic.RedactSensitive` | src/logic.py:41-45 | the e-mail pass, then the phone pass over its output; properties in `RedactSensitiveClean` and `RedactSensitiveExample` |
| `Logic.RedactEmailsNeedsAt` | src/logic.py:43 | the e-mail pass leaves a text without '@' unchanged |
| `Logic.RedactPhonesNeedsEightDigits` | src/logic.py:44 | the phone pass leaves a text with fewer than eight digits unchanged |
| `Logic.RedactSensitiveClean` | src/logic.py:41-45 | a text with neither '@' nor a digit comes out of the redactor unchanged |
| `Logic.PlaceholdersClean` | src/logic.py:43-44 | the two placeholders hold no '@' and no digit |
| `Logic.EmailBlocked` | src/logic.py:43 | no e-mail match starts at a position when, before any '@', a character comes that is neither '@' nor allowed in a local part |
| `Logic.PhoneBlocked` | src/logic.py:44 | no phone match starts at a character that is not a digit, '+' or '(' |
| `Logic.EmailMatchInSample` | src/logic.py:43 | in "contact a@b.com or 555-123-4567" the first e-mail match found at "a" ends after "com", the domain run backtracking until `\.` can match |
| `Logic.RedactEmailsSample` | src/logic.py:43 | the e-mail pass turns "contact a@b.com or 555-123-4567" into "contact [REDACTED_EMAIL] or 555-123-4567" |
| `Logic.PhoneMatchInSample` | src/logic.py:44 | in the e-mail-redacted text the first phone match at "555-123-4567" takes all twelve characters, after the optional country-code group backtracks to "5" |
| `Logic.RedactPhonesSample` | src/logic.py:44 | the phone pass turns that text into "contact [REDACTED_EMAIL] or [REDACTED_PHONE]" |
| `Logic.RedactSensitiveExample` | src/logic.py:41-45 | `redact_sensitive("contact a@b.com or 555-123-4567")` is "contact [REDACTED_EMAIL] or [REDACTED_PHONE]": both passes replace what they target |
| `Logic.EstimateEnterpriseImpact` | src/logic.py:48-58 | the result is "Unknown" exactly for strings that are not one of the four risk levels |
| `Logic.ImpactFollowsScore` | src/logic.py:48-58 | a computed risk level always has a known impact, and a higher score never a smaller one |
| `Logic.GetOwnerTeam` | src/logic.py:61-71 | the result is "Operations" exactly for categories outside the four known ones |
| `Logic.OwnerTeamsDistinct` | src/logic.py:61-66 | the four known categories go to four different teams |
| `Logic.GetSla` | src/logic.py:74-82 | the result is "1 week" exactly when the level is not Critical, High or Medium |
| `Logic.SlaTightensWithScore` | src/logic.py:74-82 | a higher score never gets a longer SLA |
| `Logic.LookupTables` | src/logic.py:48-82 | the fixed value of each listed key in the impact, owner-team and SLA lookups |
| `Logic.RiskStatementKnown` | src/logic.py:96-104 | the "Assessment pending." fallback is never reached for a computed risk level |
| `Logic.GenerateAiExplanation` | src/logic.py:85-114 | the explanation ends with the advisory line; it contains the category context, the risk statement of the score's level, the two-decimal severity clause and the quoted redacted description; with the anomaly flag it contains the anomaly sentence |
| `Logic.ExplanationAnomalySplice` | src/logic.py:105-112 | the flagged explanation is the unflagged one with the anomaly sentence inserted just before the advisory tail, and nothing else changes |
| `Logic.ExplanationSeesOnlyRedacted` | src/logic.py:111 | the description reaches the explanation only through the redactor: descriptions that redact alike give the same explanation |
| `Logic.ExplanationQuotesCleanDescription` | src/logic.py:111 | a description with nothing to redact is quoted word for word |
| `Logic.InterventionKeys` | src/logic.py:119-136 | the table covers exactly the known categories crossed with the four levels |
| `Logic.RecommendIntervention` | src/logic.py:117-141 | the text ends with the escalation clause exactly when the anomaly flag is set |
| `Logic.InterventionAnomalySuffix` | src/logic.py:138-141 | with the flag the text is the unflagged text followed by the escalation clause |
| `Logic.InterventionFallback` | src/logic.py:138 | a pair outside the table gets the standard-procedures text |
| `Decimal.RoundHalfEven` | src/logic.py:38 | the result is at most half away from the argument, and exact ties go to the even neighbour |
| `Decimal.RoundHalfEvenUnique` | src/logic.py:38 | those two properties determine the rounded value |
| `Decimal.Round2` | src/logic.py:38 | `round(x, 2)`: the exact value rounded to hundredths, ties to even; properties in `Round2Close`, `Round2Monotone` and `Round2Exact` |
| `Decimal.Round2Close` | src/logic.py:38 | `round(x, 2)` is a whole number of hundredths at most 0.005 from x |
| `Decimal.Round2Monotone` | src/logic.py:38 | `round(x, 2)` is monotone |
| `Decimal.Round2Exact` | src/logic.py:38 | a whole number of hundredths is left as it is |
| `Decimal.Format2` | src/logic.py:110 | `f"{x:.2f}"`: an optional "-", the integer part and two decimals of the rounded magnitude; property in `ParseFormat2` |
| `Decimal.ParseFormat2` | src/logic.py:110 | the `:.2f` text reads back as `round(x, 2)`, sign included |
| `Regex.EndsCount` | src/logic.py:43-44 | every match contains at least the class characters its mandatory repetitions demand |
| `Regex.SubFrom` | src/logic.py:43-44 | the left-to-right scan of `re.sub` from a position: at each position the first match found is replaced and scanning resumes after it, otherwise the character is copied; properties in `SubFromSkip`, `SubFromMatch` and `SubUnchanged` |
| `Regex.Sub` | src/logic.py:43-44 | `re.sub(pattern, repl, text)`: the scan from the start of the text |
| `Regex.SubUnchanged` | src/logic.py:43-44 | `re.sub` leaves a text unchanged when it has fewer class characters than any match needs |
| `Regex.SubFromSkip` | src/logic.py:43-44 | `re.sub` copies a stretch where no match starts unchanged |
| `Regex.SubFromMatch` | src/logic.py:43-44 | where the first match found starts, `re.sub` emits the replacement and resumes after that match |
| `Regex.FirstEndGreedy` | src/logic.py:43-44 | a bounded repetition tries its longest run first: if the rest of the pattern matches after it, that is the match |
| `Regex.NoMatchFewClass` | src/logic.py:43-44 | a pattern has no match from a position with fewer class characters left than its repetitions demand |
| `Enrichment.WithRiskLevel` | src/logic.py:147 | one row's `risk_level` cell set to the risk level of its score |
| `Enrichment.WithAnomalyFlag` | src/logic.py:148 | one row's `anomaly_flag` cell set to the anomaly test of its score and category |
| `Enrichment.WithConfidence` | src/logic.py:149 | one row's `confidence_score` cell set from its score and the anomaly cell already in the row |
| `Enrichment.EnrichRow` | src/logic.py:146-149 | the three column steps in source order on one row; properties in `EnrichRowContents`, `EnrichRowLocal` and `EnrichRowIdempotent` |
| `Enrichment.EnrichRowContents` | src/logic.py:146-149 | an enriched row keeps its score, its category and every other column; it gains exactly the three derived columns, holding the risk level, the anomaly flag and the confidence computed from the row's score and category; a well-formed row stays well-formed |
| `Enrichment.EnrichRowLocal` | src/logic.py:147-149 | the derived columns depend on the row's score and category alone |
| `Enrichment.EnrichRowIdempotent` | src/logic.py:144-150 | enriching an enriched row gives it back unchanged |
| `Enrichment.EnrichDataframe` | src/logic.py:144-150 | a freshly allocated table, as long as the input, whose every row is the enrichment of the input row at that index; the input is not modified |
| `StringOrder.Sort` | src/data.py:151 | `sorted` returns a permutation of its input, strictly ascending when the input has no duplicates |
| `StringOrder.SortedUnique` | src/data.py:151 | two strictly sorted lists with the same elements are equal, so the order in which a set is visited does not matter |
| `Text.SplitJoin` | src/data.py:151 | splitting `", ".join(xs)` at ", " gives `xs` back when no name holds a comma |
| `Data.MissingColumns` | src/data.py:148-150 | the missing names are exactly the required names absent from the columns, each once |
| `Data.ValidateDataframe` | src/data.py:146-152 | valid exactly when all four required columns are present, with the fixed success message; otherwise the message is the prefix followed by exactly the missing names, ascending and each once |
| `Data.ValidateSeesOnlyNameSet` | src/data.py:149-150 | the result depends only on which required names are columns: not on order, duplicates or extra columns |
| `Data.SortedMissingIsCanonical` | src/data.py:150-151 | every duplicate-free enumeration of the missing set sorts to the same list |
| `Data.SingleMissing` | src/data.py:151 | with one missing name the message is the prefix followed by that name |
| `Data.MissingSeverityExample` | src/data.py:151 | a table lacking only severity_score is rejected with a message naming just it |
| `Data.AllPresentExample` | src/data.py:152 | a table with the four columns plus an extra one, in any order, is accepted |

## Left out

- `Logic.GenerateAiExplanation`: the anomaly sentence is proved present when the flag is set. The converse is not stated as a substring fact, because a description can itself contain that sentence. `Logic.ExplanationAnomalySplice` states instead that the flag only inserts the sentence before the advisory tail.
- Floating point: scores, confidences and thresholds are exact reals. `round(x, 2)` and `:.2f` round the exact value half to even. CPython does the same on the binary value that a literal such as 0.35 only approximates, so results at or very near a boundary can differ from the model.
- `Logic.ComputeConfidence`: the model rounds the exact clamped value, and ordinary two-decimal scores hit exact ties. The scores 0.1, 0.3, 0.5, 0.7 and 0.9 are the only two-decimal scores in [0, 1] that do, with or without the flag. Without the flag they clamp to 0.585, 0.655, 0.725, 0.795 and 0.865, which the model rounds to 0.58, 0.66, 0.72, 0.80 and 0.86. With the flag, 0.9 gives 0.915, rounded to 0.92 (`Logic.ConfidenceTies`). The program rounds the float result of `0.55 + score * 0.35` instead, so the float error decides which way each of these goes. The simulated-signal generator emits exactly such two-decimal scores (src/data.py:130).
- `\d` and `\s` are modelled on ASCII: the ten digits, and space, `\t`-`\r` and `\x1c`-`\x1f`. Python's `str` patterns also match Unicode digits and spaces.
- `re.sub`'s handling of empty matches is not modelled. Neither redaction pattern can match the empty string (`Logic.MatchesConsumeText`), so it never arises.
- Table rows: `category` and `severity_score`, the two columns `enrich_dataframe` reads (src/logic.py:147-149), are typed fields of a row. Every other column, `timestamp` and `description` included, is a named cell. A table without `category` or `severity_score` is not modelled; pandas would raise `KeyError` on it. The upload path validates the columns first (src/ui.py:65-66). Values of other types in those two columns, for example a non-numeric score, are not modelled either.
- NaN and infinite scores: scores are reals, so NaN and ±inf are not modelled. An empty score cell read by `pd.read_csv` (src/ui.py:65) becomes NaN, and `validate_dataframe` checks only column names. On NaN, `calculate_risk_level` returns "Critical" because every comparison is false, and `detect_anomaly` returns False. `compute_confidence` returns NaN, outside the [0.55, 0.95] its docstring promises (src/logic.py:34), because `max` and `min` keep their first argument. The explanation prints "nan" as the score. Scores of +inf and -inf behave as the extremes: Critical, anomalous, confidence 0.95; or Low, not anomalous, 0.55.
- `validate_dataframe` sees the column names as strings. Non-string pandas column labels are not modelled.
- The Streamlit interface, the page routing, the seeded random signal generator and CSV loading are not part of this model. They are presentation, a foreign random-number library, or file I/O.
