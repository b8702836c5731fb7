/** The risk scoring and recommendation engine of `src/logic.py`: classifying a severity
    score into a risk level, flagging anomalies per category, estimating confidence,
    redacting personal data, the impact / owner / SLA lookups and the explanation and
    intervention texts. Scores are exact reals; risk levels and categories stay strings so
    that keys outside the tables keep their fallbacks. */
module Logic {
  import opened Text
  import Decimal
  import opened Regex

  // ---------------------------------------------------------------- risk level

  const Low := "Low"
  const Medium := "Medium"
  const High := "High"
  const Critical := "Critical"

  const RiskLevels: set<string> := {Low, Medium, High, Critical}

  /** `calculate_risk_level`: a step function of the score, defined for every real. */
  function CalculateRiskLevel(score: real): (level: string)
    ensures level in RiskLevels
    ensures level == Low <==> score < 0.35
    ensures level == Medium <==> 0.35 <= score < 0.6
    ensures level == High <==> 0.6 <= score < 0.8
    ensures level == Critical <==> 0.8 <= score
  {
    if score < 0.35 then Low
    else if score < 0.6 then Medium
    else if score < 0.8 then High
    else Critical
  }

  /** Position of a risk level in the order Low < Medium < High < Critical. */
  function Rank(level: string): nat
  {
    if level == Low then 0
    else if level == Medium then 1
    else if level == High then 2
    else 3
  }

  /** A higher score never gives a lower risk level. */
  lemma RiskLevelMonotone(a: real, b: real)
    requires a <= b
    ensures Rank(CalculateRiskLevel(a)) <= Rank(CalculateRiskLevel(b))
  {
  }

  // ---------------------------------------------------------------- anomaly

  const Categories: set<string> := {"mental_health", "service_load", "fraud", "misinformation"}

  /** `CATEGORY_ANOMALY_THRESHOLDS`. */
  const CategoryAnomalyThresholds: map<string, real> :=
    map["mental_health" := 0.80, "service_load" := 0.85, "fraud" := 0.75, "misinformation" := 0.78]

  const DefaultAnomalyThreshold: real := 0.80
  const GlobalAnomalyCutoff: real := 0.9

  /** `CATEGORY_ANOMALY_THRESHOLDS.get(category, 0.80)`. */
  function AnomalyThreshold(category: string): real
  {
    if category in CategoryAnomalyThresholds then CategoryAnomalyThresholds[category]
    else DefaultAnomalyThreshold
  }

  /** `detect_anomaly`: the global cut-off first, then the category's threshold. Every
      threshold lies below the cut-off, so the cut-off never changes the outcome. */
  function DetectAnomaly(score: real, category: string): (anomalous: bool)
    ensures anomalous <==> score >= AnomalyThreshold(category)
    ensures score >= GlobalAnomalyCutoff ==> anomalous
  {
    if score >= GlobalAnomalyCutoff then true
    else score >= AnomalyThreshold(category)
  }

  /** The thresholds each category gets, the unknown ones included. */
  lemma AnomalyThresholdTable(category: string)
    ensures category == "fraud" ==> AnomalyThreshold(category) == 0.75
    ensures category == "misinformation" ==> AnomalyThreshold(category) == 0.78
    ensures category == "service_load" ==> AnomalyThreshold(category) == 0.85
    ensures category !in Categories || category == "mental_health" ==> AnomalyThreshold(category) == 0.80
  {
  }

  lemma AnomalyExamples()
    ensures DetectAnomaly(0.79, "fraud")
    ensures !DetectAnomaly(0.79, "service_load")
    ensures forall category :: DetectAnomaly(0.9, category)
  {
  }

  lemma AnomalyMonotone(a: real, b: real, category: string)
    requires a <= b
    ensures DetectAnomaly(a, category) ==> DetectAnomaly(b, category)
  {
  }

  // ---------------------------------------------------------------- confidence

  /** `0.55 + score * 0.35`, plus `0.05` for an anomaly. */
  function ConfidenceBase(score: real, anomaly: bool): real
  {
    var base := 0.55 + score * 0.35;
    if anomaly then base + 0.05 else base
  }

  function Max(a: real, b: real): real { if a >= b then a else b }
  function Min(a: real, b: real): real { if a <= b then a else b }

  /** `min(max(base, 0.55), 0.95)`: the clamp step of `compute_confidence`. */
  function ClampedConfidence(score: real, anomaly: bool): (c: real)
    ensures 0.55 <= c <= 0.95
    ensures 0.55 <= ConfidenceBase(score, anomaly) <= 0.95 ==> c == ConfidenceBase(score, anomaly)
  {
    Min(Max(ConfidenceBase(score, anomaly), 0.55), 0.95)
  }

  /** `compute_confidence`: the clamped value rounded to two decimals. Rounding cannot
      leave the range because both ends are whole hundredths. */
  function ComputeConfidence(score: real, anomaly: bool): (c: real)
    ensures 0.55 <= c <= 0.95
    ensures Decimal.IsHundredths(c)
  {
    var clamped := ClampedConfidence(score, anomaly);
    Decimal.Round2Close(clamped);
    Decimal.Round2Monotone(0.55, clamped);
    Decimal.Round2Monotone(clamped, 0.95);
    Decimal.Round2Exact(0.55);
    Decimal.Round2Exact(0.95);
    Decimal.Round2(clamped)
  }

  lemma ClampedConfidenceMonotone(a: real, b: real, anomaly: bool)
    requires a <= b
    ensures ClampedConfidence(a, anomaly) <= ClampedConfidence(b, anomaly)
  {
  }

  /** A higher score never lowers the confidence, nor does a raised anomaly flag. */
  lemma ConfidenceMonotone(a: real, b: real, anomaly: bool)
    requires a <= b
    ensures ComputeConfidence(a, anomaly) <= ComputeConfidence(b, anomaly)
    ensures ComputeConfidence(a, false) <= ComputeConfidence(a, true)
  {
    Decimal.Round2Monotone(ClampedConfidence(a, anomaly), ClampedConfidence(b, anomaly));
    Decimal.Round2Monotone(ClampedConfidence(a, false), ClampedConfidence(a, true));
  }

  lemma ConfidenceExamples()
    ensures ComputeConfidence(0.0, false) == 0.55
    ensures ComputeConfidence(1.0, false) == 0.90
    ensures ComputeConfidence(0.0, true) == 0.60
    ensures ComputeConfidence(1.0, true) == 0.95
  {
    Decimal.Round2Exact(0.55);
    Decimal.Round2Exact(0.90);
    Decimal.Round2Exact(0.60);
    Decimal.Round2Exact(0.95);
  }

  /** The two-decimal scores 0.1, 0.3, 0.5, 0.7 and 0.9 put the clamped confidence exactly
      half-way between two hundredths, and rounding goes to the even one. */
  lemma ConfidenceTies()
    ensures ClampedConfidence(0.1, false) == 0.585 && ComputeConfidence(0.1, false) == 0.58
    ensures ClampedConfidence(0.3, false) == 0.655 && ComputeConfidence(0.3, false) == 0.66
    ensures ClampedConfidence(0.5, false) == 0.725 && ComputeConfidence(0.5, false) == 0.72
    ensures ClampedConfidence(0.7, false) == 0.795 && ComputeConfidence(0.7, false) == 0.80
    ensures ClampedConfidence(0.9, false) == 0.865 && ComputeConfidence(0.9, false) == 0.86
    ensures ClampedConfidence(0.9, true) == 0.915 && ComputeConfidence(0.9, true) == 0.92
  {
    Decimal.RoundHalfEvenUnique(58.5, 58);
    Decimal.RoundHalfEvenUnique(65.5, 66);
    Decimal.RoundHalfEvenUnique(72.5, 72);
    Decimal.RoundHalfEvenUnique(79.5, 80);
    Decimal.RoundHalfEvenUnique(86.5, 86);
    Decimal.RoundHalfEvenUnique(91.5, 92);
  }

  // ---------------------------------------------------------------- redaction

  /** `[a-zA-Z0-9._%+-]+@[a-zA-Z0-9.-]+\.[a-zA-Z]{2,}` */
  const EmailPattern: seq<Node> := [
    Repeat(EmailLocal, 1, Unbounded),
    Repeat(AtSign, 1, AtMost(1)),
    Repeat(EmailDomain, 1, Unbounded),
    Repeat(Dot, 1, AtMost(1)),
    Repeat(Letter, 2, Unbounded)
  ]

  /** `(\+?\d{1,3}[-.\s]?)?\(?\d{2,4}\)?[-.\s]?\d{3,4}[-.\s]?\d{3,4}` */
  const PhonePattern: seq<Node> := [
    Optional([Repeat(PlusSign, 0, AtMost(1)), Repeat(Digit, 1, AtMost(3)), Repeat(Separator, 0, AtMost(1))]),
    Repeat(OpenParen, 0, AtMost(1)),
    Repeat(Digit, 2, AtMost(4)),
    Repeat(CloseParen, 0, AtMost(1)),
    Repeat(Separator, 0, AtMost(1)),
    Repeat(Digit, 3, AtMost(4)),
    Repeat(Separator, 0, AtMost(1)),
    Repeat(Digit, 3, AtMost(4))
  ]

  const EmailPlaceholder := "[REDACTED_EMAIL]"
  const PhonePlaceholder := "[REDACTED_PHONE]"

  function RedactEmails(text: string): string
  {
    Sub(EmailPattern, EmailPlaceholder, text)
  }

  function RedactPhones(text: string): string
  {
    Sub(PhonePattern, PhonePlaceholder, text)
  }

  /** `redact_sensitive`: the e-mail pass, then the phone pass over its output. */
  function RedactSensitive(text: string): string
  {
    RedactPhones(RedactEmails(text))
  }

  predicate HasNoAt(text: string)
  {
    forall k :: 0 <= k < |text| ==> text[k] != '@'
  }

  predicate HasNoDigit(text: string)
  {
    forall k :: 0 <= k < |text| ==> !IsAsciiDigit(text[k])
  }

  /** Every e-mail match holds an '@'; every phone match holds at least eight digits. */
  lemma PatternMinimums()
    ensures MinCount(EmailPattern, AtSign) == 1
    ensures MinCount(PhonePattern, Digit) == 8
  {
    assert EmailPattern[2..][1..] == EmailPattern[3..];
    assert PhonePattern[3..][1..] == PhonePattern[4..];
    assert PhonePattern[6..][1..] == PhonePattern[7..];
  }

  /** Neither pattern matches the empty string, so each match really consumes text. */
  lemma MatchesConsumeText(s: string, i: nat, e: nat)
    requires i <= |s|
    ensures e in Ends(EmailPattern, s, i) ==> i < e
    ensures e in Ends(PhonePattern, s, i) ==> i < e
  {
    PatternMinimums();
    if e in Ends(EmailPattern, s, i) {
      MatchesNonEmpty(EmailPattern, s, i, e, AtSign);
    }
    if e in Ends(PhonePattern, s, i) {
      MatchesNonEmpty(PhonePattern, s, i, e, Digit);
    }
  }

  /** The e-mail pass leaves a text without '@' as it is. */
  lemma RedactEmailsNeedsAt(text: string)
    requires HasNoAt(text)
    ensures RedactEmails(text) == text
  {
    PatternMinimums();
    CountInNone(AtSign, text, 0, |text|);
    SubUnchanged(EmailPattern, EmailPlaceholder, text, AtSign);
  }

  /** The phone pass leaves a text with fewer than eight digits as it is. */
  lemma RedactPhonesNeedsEightDigits(text: string)
    requires CountIn(Digit, text, 0, |text|) < 8
    ensures RedactPhones(text) == text
  {
    PatternMinimums();
    SubUnchanged(PhonePattern, PhonePlaceholder, text, Digit);
  }

  /** A text with neither an '@' nor a digit comes out of the redactor unchanged. */
  lemma RedactSensitiveClean(text: string)
    requires HasNoAt(text) && HasNoDigit(text)
    ensures RedactSensitive(text) == text
  {
    RedactEmailsNeedsAt(text);
    CountInNone(Digit, text, 0, |text|);
    RedactPhonesNeedsEightDigits(text);
  }

  /** The placeholders hold no '@' and no digit, so they are never matched themselves. */
  lemma PlaceholdersClean()
    ensures HasNoAt(EmailPlaceholder) && HasNoDigit(EmailPlaceholder)
    ensures HasNoAt(PhonePlaceholder) && HasNoDigit(PhonePlaceholder)
  {
  }

  /** No e-mail match starts at `i` when, before any '@', the text reaches a character
      that can neither continue the local part nor be the '@'. */
  lemma EmailBlocked(s: string, i: nat, j: nat)
    requires i <= j < |s|
    requires forall k :: i <= k < j ==> s[k] != '@'
    requires !InClass(EmailLocal, s[j]) && s[j] != '@'
    ensures Ends(EmailPattern, s, i) == []
  {
    var first := RepeatEnds(EmailLocal, 1, Unbounded, s, i);
    var rest := EmailPattern[1..];
    assert Ends(EmailPattern, s, i) == Then(first, rest, s, i);
    forall k | 0 <= k < |first| ensures Ends(rest, s, first[k]) == [] {
      var m := first[k];
      AllInStops(EmailLocal, s, i, m, j);
      RunIs(AtSign, s, m, 1, 0);
      assert RepeatEnds(AtSign, 1, AtMost(1), s, m) == [];
      assert Ends(rest, s, m) == Then([], rest[1..], s, m);
    }
    ThenNone(first, rest, s, i);
  }

  /** No phone match starts at a character that is neither a digit, '+' nor '('. */
  lemma PhoneBlocked(s: string, i: nat)
    requires i < |s|
    requires !IsAsciiDigit(s[i]) && s[i] != '+' && s[i] != '('
    ensures Ends(PhonePattern, s, i) == []
  {
    var group := PhonePattern[0].group;
    RunIs(PlusSign, s, i, 1, 0);
    RunIs(Digit, s, i, 3, 0);
    assert Ends(group[1..], s, i) == [] by {
      assert RepeatEnds(Digit, 1, AtMost(3), s, i) == [];
    }
    assert Ends(group, s, i) == [] by {
      assert RepeatEnds(PlusSign, 0, AtMost(1), s, i) == [i];
      assert Ends(group, s, i) == Then([i], group[1..], s, i);
    }
    assert NodeEnds(PhonePattern[0], s, i) == [i];
    var rest := PhonePattern[1..];
    RunIs(OpenParen, s, i, 1, 0);
    RunIs(Digit, s, i, 4, 0);
    assert Ends(rest[1..], s, i) == [] by {
      assert RepeatEnds(Digit, 2, AtMost(4), s, i) == [];
    }
    assert Ends(rest, s, i) == [] by {
      assert RepeatEnds(OpenParen, 0, AtMost(1), s, i) == [i];
      assert Ends(rest, s, i) == Then([i], rest[1..], s, i);
    }
    assert Ends(PhonePattern, s, i) == Then([i], rest, s, i);
  }

  const RedactionSample := "contact a@b.com or 555-123-4567"
  const RedactedEmailSample := "contact [REDACTED_EMAIL] or 555-123-4567"

  /** In the sample, `\.[a-zA-Z]{2,}` fails after "b.com", "b.co", "b.c" and "b.", and
      after "b" takes ".com". */
  lemma EmailSampleSuffix()
    ensures forall m :: 12 <= m <= 15 ==> Ends(EmailPattern[3..], RedactionSample, m) == []
    ensures FirstEnd(EmailPattern[3..], RedactionSample, 11, 15)
  {
    var s := RedactionSample;
    var e3 := EmailPattern[3..];
    assert e3 == [Repeat(Dot, 1, AtMost(1)), Repeat(Letter, 2, Unbounded)];
    var e4 := e3[1..];
    assert e4 == [Repeat(Letter, 2, Unbounded)];
    forall m | 12 <= m <= 15 ensures Ends(e3, s, m) == [] {
      RunIs(Dot, s, m, 1, 0);
      assert NodeEnds(e3[0], s, m) == [];
      NoMatchThen(e3, s, m);
    }
    RunIs(Dot, s, 11, 1, 1);
    assert NodeEnds(e3[0], s, 11) == [12];
    RunIs(Letter, s, 12, |s| - 12, 3);
    assert NodeEnds(e4[0], s, 12) == [15, 14];
    assert e4[1..] == [];
    assert Ends(e4[1..], s, 15) == [15];
    FirstEndThen(e4, s, 12, 0, 15);
    FirstEndThen(e3, s, 11, 0, 15);
  }

  /** In the sample the local part `[a-zA-Z0-9._%+-]+` takes just "a". */
  lemma EmailSampleLocalRun()
    ensures NodeEnds(EmailPattern[0], RedactionSample, 8) == [9]
  {
    var s := RedactionSample;
    RunIs(EmailLocal, s, 8, |s| - 8, 1);
  }

  lemma EmailSampleAtRun()
    ensures NodeEnds(EmailPattern[1], RedactionSample, 9) == [10]
  {
    var s := RedactionSample;
    RunIs(AtSign, s, 9, 1, 1);
  }

  /** The domain run `[a-zA-Z0-9.-]+` takes "b.com" and gives it back one character at a time. */
  lemma EmailSampleDomainRun()
    ensures NodeEnds(EmailPattern[2], RedactionSample, 10) == [15, 14, 13, 12, 11]
  {
    var s := RedactionSample;
    RunIs(EmailDomain, s, 10, |s| - 10, 5);
  }

  /** In the sample the e-mail match at "a@b.com" ends after "com": the domain run gives
      back characters until `\.` can match. */
  lemma EmailMatchInSample()
    ensures FirstEnd(EmailPattern, RedactionSample, 8, 15)
  {
    var s := RedactionSample;
    var e := EmailPattern;
    var e1, e2 := e[1..], e[2..];
    assert e1[0] == e[1] && e1[1..] == e2;
    assert e2[0] == e[2] && e2[1..] == e[3..];
    EmailSampleLocalRun();
    EmailSampleAtRun();
    EmailSampleDomainRun();
    EmailSampleSuffix();
    FirstEndThen(e2, s, 10, 4, 15);
    FirstEndThen(e1, s, 9, 0, 15);
    FirstEndThen(e, s, 8, 0, 15);
  }

  /** No e-mail match starts in "contact ": the space ends every local part before an '@'. */
  lemma EmailSamplePrefix()
    ensures forall k :: 0 <= k < 8 ==> Ends(EmailPattern, RedactionSample, k) == []
  {
    var s := RedactionSample;
    forall k | 0 <= k < 8 ensures Ends(EmailPattern, s, k) == [] {
      EmailBlocked(s, k, 7);
    }
  }

  /** After the match, " or 555-123-4567" holds no '@' and is copied as it is. */
  lemma EmailSampleTail()
    ensures SubFrom(EmailPattern, EmailPlaceholder, RedactionSample, 15) == RedactionSample[15..]
  {
    var s := RedactionSample;
    CountInNone(AtSign, s, 15, |s|);
    PatternMinimums();
    SubFromUnchanged(EmailPattern, EmailPlaceholder, s, AtSign, 15);
  }

  /** The scan of the e-mail pass over the sample: "contact " is copied, "a@b.com" is
      replaced, and the rest is copied. */
  lemma EmailSampleScan()
    ensures SubFrom(EmailPattern, EmailPlaceholder, RedactionSample, 0)
         == RedactionSample[0..8] + EmailPlaceholder + RedactionSample[15..]
  {
    var s := RedactionSample;
    EmailSamplePrefix();
    SubFromSkip(EmailPattern, EmailPlaceholder, s, 0, 8);
    EmailMatchInSample();
    SubFromMatch(EmailPattern, EmailPlaceholder, s, 8, 15);
    EmailSampleTail();
  }

  /** The e-mail pass over the sample replaces "a@b.com" and nothing else. */
  lemma RedactEmailsSample()
    ensures RedactEmails(RedactionSample) == RedactedEmailSample
  {
    EmailSampleScan();
    EmailSampleSplice();
  }

  lemma EmailSampleSplice()
    ensures RedactionSample[0..8] + EmailPlaceholder + RedactionSample[15..] == RedactedEmailSample
  {
    assert RedactionSample[0..8] == "contact ";
    assert RedactionSample[15..] == " or 555-123-4567";
  }

  const RedactedSample := "contact [REDACTED_EMAIL] or [REDACTED_PHONE]"

  /** No phone match starts in "contact [REDACTED_EMAIL] or ": none of its characters can
      begin one. */
  lemma PhoneSamplePrefix()
    ensures forall k :: 0 <= k < 28 ==> Ends(PhonePattern, RedactedEmailSample, k) == []
  {
    var t := RedactedEmailSample;
    forall k | 0 <= k < 28 ensures Ends(PhonePattern, t, k) == [] {
      PhoneBlocked(t, k);
    }
  }

  /** The separator `[-.\s]?` closing the country-code group takes the "-" after "555". */
  lemma PhoneSampleGroupSeparator()
    ensures Ends(PhonePattern[0].group[2..], RedactedEmailSample, 31) == [32, 31]
  {
    var t := RedactedEmailSample;
    var n := Repeat(Separator, 0, AtMost(1));
    assert PhonePattern[0].group[2..] == [n];
    EndsSingle(n, t, 31);
    RunIs(Separator, t, 31, 1, 1);
    assert NodeEnds(n, t, 31) == Countdown(32, 31);
  }

  /** ... and takes nothing after "55" or "5". */
  lemma PhoneSampleGroupNoSeparator(i: nat)
    requires i == 29 || i == 30
    ensures Ends(PhonePattern[0].group[2..], RedactedEmailSample, i) == [i]
  {
    var t := RedactedEmailSample;
    var n := Repeat(Separator, 0, AtMost(1));
    assert PhonePattern[0].group[2..] == [n];
    EndsSingle(n, t, i);
    RunIs(Separator, t, i, 1, 0);
    assert NodeEnds(n, t, i) == Countdown(i, i);
  }

  /** The country code `\d{1,3}` takes "555" and gives back one digit at a time. */
  lemma PhoneSampleCountryCode()
    ensures NodeEnds(Repeat(Digit, 1, AtMost(3)), RedactedEmailSample, 28) == [31, 30, 29]
  {
    RunIs(Digit, RedactedEmailSample, 28, 3, 3);
    assert Countdown(31, 29) == [31] + Countdown(30, 29);
  }

  /** Going on after "55" or "5", the separator matches nothing. */
  lemma PhoneSampleGroupShortCodes()
    ensures Then([30, 29], PhonePattern[0].group[2..], RedactedEmailSample, 28) == [30, 29]
  {
    var t := RedactedEmailSample;
    var g2 := PhonePattern[0].group[2..];
    PhoneSampleGroupNoSeparator(30);
    PhoneSampleGroupNoSeparator(29);
    assert [30, 29][1..] == [29];
    assert Then([29], g2, t, 28) == [29] + Then([], g2, t, 28);
  }

  /** The country code `\d{1,3}[-.\s]?` of the group, from the first "5". */
  lemma PhoneSampleGroupDigits()
    ensures Ends(PhonePattern[0].group[1..], RedactedEmailSample, 28) == [32, 31, 30, 29]
  {
    var t := RedactedEmailSample;
    var g1 := PhonePattern[0].group[1..];
    assert g1[0] == Repeat(Digit, 1, AtMost(3)) && g1[1..] == PhonePattern[0].group[2..];
    PhoneSampleCountryCode();
    PhoneSampleGroupSeparator();
    PhoneSampleGroupShortCodes();
    assert [31, 30, 29][1..] == [30, 29];
    assert Ends(g1, t, 28) == Ends(g1[1..], t, 31) + Then([30, 29], g1[1..], t, 28);
  }

  /** In the sample the optional country-code group `(\+?\d{1,3}[-.\s]?)?` takes "555-"
      and gives it back as "555", "55", "5" and nothing. */
  lemma PhoneSampleGroup()
    ensures NodeEnds(PhonePattern[0], RedactedEmailSample, 28) == [32, 31, 30, 29, 28]
  {
    var t := RedactedEmailSample;
    var g := PhonePattern[0].group;
    assert g[0] == Repeat(PlusSign, 0, AtMost(1));
    PhoneSampleGroupDigits();
    RunIs(PlusSign, t, 28, 1, 0);
    assert NodeEnds(g[0], t, 28) == [28];
    assert Ends(g, t, 28) == Then([28], g[1..], t, 28);
  }

  /** From "-123-4567" on, fewer digits are left than the rest of the pattern needs. */
  lemma PhoneSampleLateStarts()
    ensures Ends(PhonePattern[1..], RedactedEmailSample, 32) == []
    ensures Ends(PhonePattern[1..], RedactedEmailSample, 31) == []
  {
    var t := RedactedEmailSample;
    var p := PhonePattern;
    assert MinCount(p, Digit) == MinCount(p[1..], Digit);
    PatternMinimums();
    CountInAll(Digit, t, 32, 35);
    CountInNone(Digit, t, 35, 36);
    CountInAll(Digit, t, 36, 40);
    CountInSplit(Digit, t, 32, 35, 40);
    CountInSplit(Digit, t, 35, 36, 40);
    CountInNone(Digit, t, 31, 32);
    CountInSplit(Digit, t, 31, 32, 40);
    NoMatchFewClass(p[1..], t, 32, Digit);
    NoMatchFewClass(p[1..], t, 31, Digit);
  }

  /** After "55", a single "5" is too short for the area code `\d{2,4}`. */
  lemma PhoneSampleShortArea()
    ensures Ends(PhonePattern[1..], RedactedEmailSample, 30) == []
  {
    var t := RedactedEmailSample;
    var r := PhonePattern[1..];
    assert r[0] == Repeat(OpenParen, 0, AtMost(1)) && r[1..] == PhonePattern[2..];
    assert PhonePattern[2..][0] == Repeat(Digit, 2, AtMost(4));
    RunIs(OpenParen, t, 30, 1, 0);
    assert NodeEnds(r[0], t, 30) == [30];
    RunIs(Digit, t, 30, 4, 1);
    assert NodeEnds(PhonePattern[2..][0], t, 30) == [];
    NoMatchThen(PhonePattern[2..], t, 30);
    NoMatchThen(r, t, 30);
  }

  /** "123", "-" and "4567" complete the last three parts of the pattern. */
  lemma PhoneSampleLastGroups()
    ensures FirstEnd(PhonePattern[5..], RedactedEmailSample, 32, 40)
  {
    var t := RedactedEmailSample;
    var p := PhonePattern;
    assert p[7..] == [Repeat(Digit, 3, AtMost(4))] + [];
    assert p[6..] == [Repeat(Separator, 0, AtMost(1))] + p[7..];
    assert p[5..] == [Repeat(Digit, 3, AtMost(4))] + p[6..];
    assert FirstEnd([], t, 40, 40);
    FirstEndGreedy(Digit, 3, 4, [], t, 36, 4, 40);
    FirstEndGreedy(Separator, 0, 1, p[7..], t, 35, 1, 40);
    FirstEndGreedy(Digit, 3, 4, p[6..], t, 32, 3, 40);
  }

  /** After the group gives back all but "5", the area code takes "55", the separator "-",
      and the rest completes. */
  lemma PhoneSampleAreaMatch()
    ensures FirstEnd(PhonePattern[1..], RedactedEmailSample, 29, 40)
  {
    var t := RedactedEmailSample;
    var p := PhonePattern;
    assert p[4..] == [Repeat(Separator, 0, AtMost(1))] + p[5..];
    assert p[3..] == [Repeat(CloseParen, 0, AtMost(1))] + p[4..];
    assert p[2..] == [Repeat(Digit, 2, AtMost(4))] + p[3..];
    assert p[1..] == [Repeat(OpenParen, 0, AtMost(1))] + p[2..];
    PhoneSampleLastGroups();
    FirstEndGreedy(Separator, 0, 1, p[5..], t, 31, 1, 40);
    FirstEndGreedy(CloseParen, 0, 1, p[4..], t, 31, 0, 40);
    FirstEndGreedy(Digit, 2, 4, p[3..], t, 29, 2, 40);
    FirstEndGreedy(OpenParen, 0, 1, p[2..], t, 29, 0, 40);
  }

  /** Once the group is down to "5", the rest of the pattern matches up to the end. */
  lemma PhoneSampleRestFirst()
    ensures Then([29, 28], PhonePattern[1..], RedactedEmailSample, 28) != []
    ensures Then([29, 28], PhonePattern[1..], RedactedEmailSample, 28)[0] == 40
  {
    PhoneSampleAreaMatch();
    ThenFirst([29, 28], PhonePattern[1..], RedactedEmailSample, 28, 0, 40);
  }

  /** The group's first three choices, "555-", "555" and "55", leave the rest no match. */
  lemma PhoneSampleRestSkips()
    ensures Then([32, 31, 30, 29, 28], PhonePattern[1..], RedactedEmailSample, 28)
         == Then([29, 28], PhonePattern[1..], RedactedEmailSample, 28)
  {
    var t := RedactedEmailSample;
    var r := PhonePattern[1..];
    PhoneSampleLateStarts();
    PhoneSampleShortArea();
    assert [32, 31, 30, 29, 28][1..] == [31, 30, 29, 28];
    assert [31, 30, 29, 28][1..] == [30, 29, 28];
    assert [30, 29, 28][1..] == [29, 28];
    assert Then([30, 29, 28], r, t, 28) == Then([29, 28], r, t, 28);
    assert Then([31, 30, 29, 28], r, t, 28) == Then([30, 29, 28], r, t, 28);
  }

  /** In the e-mail-redacted sample the phone match at "555-123-4567" takes all of it:
      the country-code group backtracks to "5" before the rest can match. */
  lemma PhoneMatchInSample()
    ensures FirstEnd(PhonePattern, RedactedEmailSample, 28, 40)
  {
    var t := RedactedEmailSample;
    PhoneSampleGroup();
    PhoneSampleRestSkips();
    PhoneSampleRestFirst();
    assert Ends(PhonePattern, t, 28) == Then(NodeEnds(PhonePattern[0], t, 28), PhonePattern[1..], t, 28);
  }

  /** The scan of the phone pass: the text before the number is copied and the number replaced. */
  lemma PhoneSampleScan()
    ensures SubFrom(PhonePattern, PhonePlaceholder, RedactedEmailSample, 0)
         == RedactedEmailSample[0..28] + PhonePlaceholder
  {
    var t := RedactedEmailSample;
    var ph := PhonePlaceholder;
    PhoneSamplePrefix();
    SubFromSkip(PhonePattern, ph, t, 0, 28);
    PhoneMatchInSample();
    SubFromMatch(PhonePattern, ph, t, 28, 40);
    assert SubFrom(PhonePattern, ph, t, 40) == "";
    assert ph + "" == ph;
  }

  lemma PhoneSampleSplice()
    ensures RedactedEmailSample[0..28] + PhonePlaceholder == RedactedSample
  {
    assert RedactedEmailSample[0..28] == "contact [REDACTED_EMAIL] or ";
  }

  /** The phone pass over the e-mail-redacted sample replaces the phone number. */
  lemma RedactPhonesSample()
    ensures RedactPhones(RedactedEmailSample) == RedactedSample
  {
    PhoneSampleScan();
    PhoneSampleSplice();
  }

  /** `redact_sensitive` replaces both the e-mail address and the phone number. */
  lemma RedactSensitiveExample()
    ensures RedactSensitive("contact a@b.com or 555-123-4567")
         == "contact [REDACTED_EMAIL] or [REDACTED_PHONE]"
  {
    RedactEmailsSample();
    RedactPhonesSample();
  }

  // ---------------------------------------------------------------- lookups

  /** `ENTERPRISE_IMPACT`. */
  const EnterpriseImpact: map<string, string> :=
    map[Low := "Minor", Medium := "Moderate", High := "Significant", Critical := "Severe"]

  /** `estimate_enterprise_impact`. */
  function EstimateEnterpriseImpact(level: string): (impact: string)
    ensures impact == "Unknown" <==> level !in RiskLevels
  {
    if level in EnterpriseImpact then EnterpriseImpact[level] else "Unknown"
  }

  /** Position of an impact in the order Minor < Moderate < Significant < Severe. */
  function ImpactRank(impact: string): nat
  {
    if impact == "Minor" then 0
    else if impact == "Moderate" then 1
    else if impact == "Significant" then 2
    else 3
  }

  /** Every score has a known impact, and a higher score never a smaller one. */
  lemma ImpactFollowsScore(a: real, b: real)
    requires a <= b
    ensures EstimateEnterpriseImpact(CalculateRiskLevel(a)) != "Unknown"
    ensures ImpactRank(EstimateEnterpriseImpact(CalculateRiskLevel(a)))
         <= ImpactRank(EstimateEnterpriseImpact(CalculateRiskLevel(b)))
  {
  }

  /** `OWNER_TEAM`. */
  const OwnerTeam: map<string, string> :=
    map["mental_health" := "Student Services", "service_load" := "IT Ops",
        "fraud" := "Security", "misinformation" := "Comms"]

  /** `get_owner_team`. */
  function GetOwnerTeam(category: string): (team: string)
    ensures team == "Operations" <==> category !in Categories
  {
    if category in OwnerTeam then OwnerTeam[category] else "Operations"
  }

  /** Each known category has its own team. */
  lemma OwnerTeamsDistinct(a: string, b: string)
    requires a in Categories && b in Categories && a != b
    ensures GetOwnerTeam(a) != GetOwnerTeam(b)
  {
  }

  /** `get_sla`. */
  function GetSla(level: string): (sla: string)
    ensures sla == "1 week" <==> level !in {Critical, High, Medium}
  {
    if level == Critical then "1 hour"
    else if level == High then "24 hours"
    else if level == Medium then "72 hours"
    else "1 week"
  }

  /** The SLA texts as a number of hours. */
  function SlaHours(sla: string): nat
  {
    if sla == "1 hour" then 1
    else if sla == "24 hours" then 24
    else if sla == "72 hours" then 72
    else 168
  }

  /** A higher score never gets a longer SLA. */
  lemma SlaTightensWithScore(a: real, b: real)
    requires a <= b
    ensures SlaHours(GetSla(CalculateRiskLevel(b))) <= SlaHours(GetSla(CalculateRiskLevel(a)))
  {
  }

  /** The fixed value each listed key maps to in the three lookups. */
  lemma LookupTables()
    ensures EstimateEnterpriseImpact(Low) == "Minor" && EstimateEnterpriseImpact(Medium) == "Moderate"
    ensures EstimateEnterpriseImpact(High) == "Significant" && EstimateEnterpriseImpact(Critical) == "Severe"
    ensures GetOwnerTeam("mental_health") == "Student Services" && GetOwnerTeam("service_load") == "IT Ops"
    ensures GetOwnerTeam("fraud") == "Security" && GetOwnerTeam("misinformation") == "Comms"
    ensures GetSla(Critical) == "1 hour" && GetSla(High) == "24 hours" && GetSla(Medium) == "72 hours"
    ensures GetSla(Low) == "1 week"
  {
  }

  // ---------------------------------------------------------------- explanation

  const CategoryContexts: map<string, string> :=
    map["mental_health" := "psychological wellness and support service demand",
        "service_load" := "infrastructure capacity and service availability",
        "fraud" := "financial integrity and transaction security",
        "misinformation" := "information accuracy and content authenticity"]

  const RiskStatements: map<string, string> :=
    map[Low := "Within normal operating parameters. Routine monitoring applies.",
        Medium := "Elevated risk requiring monitoring.",
        High := "Escalation threshold exceeded. Material operational risk.",
        Critical := "Immediate action required. Potential systemic impact."]

  const PendingStatement := "Assessment pending."
  const AnomalySentence := " Anomaly detected: behavior deviates significantly from baseline."
  const AdvisoryLine := "*Recommendation is advisory and requires human review.*"

  function CategoryContext(category: string): string
  {
    if category in CategoryContexts then CategoryContexts[category] else "operational risk monitoring"
  }

  function RiskStatement(level: string): string
  {
    if level in RiskStatements then RiskStatements[level] else PendingStatement
  }

  /** The "Assessment pending." fallback is never reached: every score has a statement. */
  lemma RiskStatementKnown(score: real)
    ensures RiskStatement(CalculateRiskLevel(score)) != PendingStatement
  {
  }

  /** The "Severity score: 0.42." clause. */
  function SeverityClause(severityScore: real): string
  {
    "Severity score: " + Decimal.Format2(severityScore) + "."
  }

  /** The quoted, redacted description. */
  function ContextClause(description: string): string
  {
    "Signal context: \"" + RedactSensitive(description) + "\"."
  }

  /** The pieces of the explanation's f-string before the anomaly sentence. */
  function ExplanationHead(category: string, severityScore: real, description: string): seq<string>
  {
    ["**Analysis:** This signal relates to ", CategoryContext(category), ". ",
     RiskStatement(CalculateRiskLevel(severityScore)), " ",
     SeverityClause(severityScore), " ",
     ContextClause(description)]
  }

  /** All pieces of the explanation's f-string, in order; the anomaly sentence is the
      ninth piece, present or empty. */
  function ExplanationParts(category: string, severityScore: real, anomaly: bool, description: string)
    : seq<string>
  {
    ExplanationHead(category, severityScore, description)
      + [if anomaly then AnomalySentence else ""]
      + ["\n\n", AdvisoryLine]
  }

  /** `generate_ai_explanation`. */
  function GenerateAiExplanation(category: string, severityScore: real, anomaly: bool, description: string)
    : (explanation: string)
    ensures EndsWith(explanation, "\n\n" + AdvisoryLine)
    ensures Contains(explanation, CategoryContext(category))
    ensures Contains(explanation, RiskStatement(CalculateRiskLevel(severityScore)))
    ensures Contains(explanation, SeverityClause(severityScore))
    ensures Contains(explanation, ContextClause(description))
    ensures anomaly ==> Contains(explanation, AnomalySentence)
  {
    var parts := ExplanationParts(category, severityScore, anomaly, description);
    ConcatContainsPart(parts, 1);
    ConcatContainsPart(parts, 3);
    ConcatContainsPart(parts, 5);
    ConcatContainsPart(parts, 7);
    ConcatContainsPart(parts, 8);
    ConcatEndsWith(parts, 9);
    assert parts[9..] == ["\n\n", AdvisoryLine];
    ConcatPair("\n\n", AdvisoryLine);
    Concat(parts)
  }

  /** The anomaly flag only inserts the anomaly sentence just before the closing advisory
      line; nothing else of the explanation depends on it. */
  lemma ExplanationAnomalySplice(category: string, severityScore: real, description: string)
    ensures var plain := GenerateAiExplanation(category, severityScore, false, description);
            var flagged := GenerateAiExplanation(category, severityScore, true, description);
            var tail := "\n\n" + AdvisoryLine;
            |tail| <= |plain|
            && flagged == plain[..|plain| - |tail|] + AnomalySentence + tail
  {
    var head := ExplanationHead(category, severityScore, description);
    var tailParts := ["\n\n", AdvisoryLine];
    ConcatAround(head, "", tailParts);
    ConcatAround(head, AnomalySentence, tailParts);
    ConcatPair("\n\n", AdvisoryLine);
    var plain := Concat(head) + "" + Concat(tailParts);
    assert plain[..|plain| - |Concat(tailParts)|] == Concat(head);
  }

  /** The description reaches the explanation only through the redactor: two descriptions
      that redact alike give the same explanation. */
  lemma ExplanationSeesOnlyRedacted(category: string, severityScore: real, anomaly: bool, d1: string, d2: string)
    requires RedactSensitive(d1) == RedactSensitive(d2)
    ensures GenerateAiExplanation(category, severityScore, anomaly, d1)
         == GenerateAiExplanation(category, severityScore, anomaly, d2)
  {
  }

  /** A description with nothing to redact is quoted word for word. */
  lemma ExplanationQuotesCleanDescription(category: string, severityScore: real, anomaly: bool, description: string)
    requires HasNoAt(description) && HasNoDigit(description)
    ensures Contains(GenerateAiExplanation(category, severityScore, anomaly, description),
                     "Signal context: \"" + description + "\".")
  {
    RedactSensitiveClean(description);
  }

  // ---------------------------------------------------------------- intervention

  /** The sixteen (category, risk level) entries of `recommend_intervention`. */
  const Interventions: map<(string, string), string> :=
    map[
      ("mental_health", "Critical") := "Activate crisis response protocol. Deploy additional counseling resources. Notify wellness leadership team. Initiate 24-hour monitoring cycle.",
      ("mental_health", "High") := "Increase counseling availability. Send proactive outreach to at-risk groups. Schedule wellness check-ins within 48 hours.",
      ("mental_health", "Medium") := "Monitor wellness indicators. Prepare resource scaling plan. Review support service capacity.",
      ("mental_health", "Low") := "Continue routine monitoring. Log for trend analysis.",
      ("service_load", "Critical") := "Initiate capacity expansion protocol. Activate disaster recovery standby. Alert infrastructure on-call team. Consider load shedding non-critical services.",
      ("service_load", "High") := "Scale horizontal resources. Enable request queuing. Prepare failover activation.",
      ("service_load", "Medium") := "Monitor resource utilization trends. Pre-stage additional capacity. Review auto-scaling thresholds.",
      ("service_load", "Low") := "Log metrics for capacity planning. No immediate action required.",
      ("fraud", "Critical") := "Freeze affected accounts immediately. Escalate to fraud investigation unit. Preserve forensic evidence chain. Notify compliance officer.",
      ("fraud", "High") := "Flag transactions for manual review. Increase authentication requirements. Alert risk management team.",
      ("fraud", "Medium") := "Apply enhanced monitoring rules. Queue for next-cycle investigation. Update detection thresholds.",
      ("fraud", "Low") := "Log for pattern analysis. No immediate intervention required.",
      ("misinformation", "Critical") := "Issue immediate correction through official channels. Escalate to communications team. Implement content takedown if on owned platforms.",
      ("misinformation", "High") := "Prepare counter-narrative. Flag content for review. Alert communications stakeholders.",
      ("misinformation", "Medium") := "Monitor spread velocity. Prepare fact-check response. Log for trend analysis.",
      ("misinformation", "Low") := "Archive for reference. Continue baseline monitoring."
    ]

  const GenericIntervention := "Apply standard operating procedures for this risk category and level."
  const AnomalyEscalation :=
    " **[ANOMALY DETECTED]** Escalate to senior analyst for pattern review and root cause investigation."

  /** The table covers exactly the known categories crossed with the four risk levels. */
  lemma InterventionKeys(category: string, level: string)
    ensures (category, level) in Interventions <==> category in Categories && level in RiskLevels
  {
  }

  /** `recommend_intervention`. */
  function RecommendIntervention(category: string, level: string, anomaly: bool): (text: string)
    ensures EndsWith(text, AnomalyEscalation) <==> anomaly
  {
    var base := if (category, level) in Interventions then Interventions[(category, level)]
                else GenericIntervention;
    if anomaly then base + AnomalyEscalation else base
  }

  /** With the anomaly flag the text is the one without it followed by the escalation clause. */
  lemma InterventionAnomalySuffix(category: string, level: string)
    ensures RecommendIntervention(category, level, true)
         == RecommendIntervention(category, level, false) + AnomalyEscalation
  {
  }

  /** A pair outside the table gets the standard-procedures text. */
  lemma InterventionFallback(category: string, level: string)
    requires category !in Categories || level !in RiskLevels
    ensures RecommendIntervention(category, level, false) == GenericIntervention
  {
  }
}
