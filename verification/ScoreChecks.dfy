/** The gates before the arithmetic: evidence for the scores that need it, the bonus the scorer may
    enter, and the scheme HR may create. */
module ScoreChecks {
  import opened Domain
  import opened Rounding
  import opened Scoring
  import opened ScoringLaws
  import opened Text

  // ---------------------------------------------------------------- evidence

  function WordCount(evidence: Option<string>): nat {
    if evidence.Some? then Words(evidence.value, false) else 0
  }

  predicate TooLittleEvidence(row: Score, rules: Rules) {
    row.score in rules.evidenceRequiredScores && WordCount(row.evidence) < rules.evidenceMinWords
  }

  predicate TooMuchEvidence(row: Score, rules: Rules) {
    WordCount(row.evidence) > rules.evidenceMaxWords
  }

  predicate EvidenceOk(rows: seq<Score>, rules: Rules) {
    forall i :: 0 <= i < |rows| ==> !TooLittleEvidence(rows[i], rules) && !TooMuchEvidence(rows[i], rules)
  }

  /** Both lists of complaints, by indicator; the submission is refused when either is not empty. */
  method ValidateEvidence(rows: seq<Score>, rules: Rules) returns (violations: seq<Id>, tooLong: seq<Id>)
    ensures violations == [] && tooLong == [] <==> EvidenceOk(rows, rules)
    ensures forall k :: k in violations <==>
        exists i :: 0 <= i < |rows| && rows[i].indicator == k && TooLittleEvidence(rows[i], rules)
    ensures forall k :: k in tooLong <==>
        exists i :: 0 <= i < |rows| && rows[i].indicator == k && TooMuchEvidence(rows[i], rules)
  {
    violations, tooLong := [], [];
    for n := 0 to |rows|
      invariant forall i :: 0 <= i < n && TooLittleEvidence(rows[i], rules) ==> rows[i].indicator in violations
      invariant forall k :: k in violations ==>
          exists i :: 0 <= i < n && rows[i].indicator == k && TooLittleEvidence(rows[i], rules)
      invariant forall i :: 0 <= i < n && TooMuchEvidence(rows[i], rules) ==> rows[i].indicator in tooLong
      invariant forall k :: k in tooLong ==>
          exists i :: 0 <= i < n && rows[i].indicator == k && TooMuchEvidence(rows[i], rules)
    {
      var count := WordCount(rows[n].evidence);
      if rows[n].score in rules.evidenceRequiredScores && count < rules.evidenceMinWords {
        violations := violations + [rows[n].indicator];
      }
      if count > rules.evidenceMaxWords {
        tooLong := tooLong + [rows[n].indicator];
      }
    }
    if !EvidenceOk(rows, rules) {
      ghost var i :| 0 <= i < |rows| && (TooLittleEvidence(rows[i], rules) || TooMuchEvidence(rows[i], rules));
      assert rows[i].indicator in violations || rows[i].indicator in tooLong;
    }
    ListedFor(rows, violations, row => TooLittleEvidence(row, rules));
    ListedFor(rows, tooLong, row => TooMuchEvidence(row, rules));
  }

  /** A complaint comes from a row that gives cause for it. */
  lemma ListedFor(rows: seq<Score>, listed: seq<Id>, bad: Score -> bool)
    requires forall k :: k in listed ==> exists i :: 0 <= i < |rows| && rows[i].indicator == k && bad(rows[i])
    ensures listed != [] ==> exists i :: 0 <= i < |rows| && bad(rows[i])
  {
    if listed != [] {
      var k := listed[0];
      assert k in listed;
      var i :| 0 <= i < |rows| && rows[i].indicator == k && bad(rows[i]);
    }
  }

  // ---------------------------------------------------------------- bonus

  const BONUS_REASON_MIN := 10

  datatype BonusError = NegativeBonus | BonusDisabled | BonusAboveCap | ReasonTooShort

  function ValidateBonus(points: real, reason: Option<string>, rules: Rules): Option<BonusError> {
    if points < 0.0 then Some(NegativeBonus)
    else if points > 0.0 && rules.bonusMaxPoints <= 0.0 then Some(BonusDisabled)
    else if points > rules.bonusMaxPoints then Some(BonusAboveCap)
    else if points > 0.0 && |Strip(if reason.Some? then reason.value else "")| < BONUS_REASON_MIN
    then Some(ReasonTooShort)
    else None
  }

  /** Zero is always accepted where there is a cap at all; anything more needs a cap, a bonus within it and a
      reason of ten characters. */
  lemma BonusInWords(points: real, reason: Option<string>, rules: Rules)
    ensures ValidateBonus(points, reason, rules) == None
      <==> 0.0 <= points <= rules.bonusMaxPoints && (points > 0.0 ==> reason.Some? && |Strip(reason.value)| >= 10)
    ensures points < 0.0 ==> ValidateBonus(points, reason, rules) == Some(NegativeBonus)
    ensures points > 0.0 && rules.bonusMaxPoints <= 0.0 ==> ValidateBonus(points, reason, rules) == Some(BonusDisabled)
    ensures points > rules.bonusMaxPoints > 0.0 ==> ValidateBonus(points, reason, rules) == Some(BonusAboveCap)
  {
    StripFixes("");
  }

  /** A bonus that was accepted is never silently cut by the scheme: short of 100 it takes effect as
      entered, and otherwise it fills the percentage up to 100. */
  lemma AcceptedBonusTakesEffect(points: real, reason: Option<string>, rules: Rules, base: real)
    requires ValidateBonus(points, reason, rules) == None && IsHundredth(points)
    requires IsTenth(base) && 0.0 <= base <= 100.0 && ValidRules(rules)
    ensures base + AppliedBonus(base, points, rules) == Min(base + points, 100.0)
  {
    BonusFits(base, points, rules);
    Round2Fixes(points);
    if base + points <= 100.0 {
      assert Max(0.0, Min(points, Min(rules.bonusMaxPoints, 100.0 - base))) == points;
    }
  }

  /** Base and bonus add up to the final percentage exactly if the bonus was entered in tenths or lifts the
      base to 100. */
  lemma SumIsExact(points: real, reason: Option<string>, rules: Rules, base: real)
    requires ValidateBonus(points, reason, rules) == None && IsHundredth(points)
    requires IsTenth(base) && 0.0 <= base <= 100.0 && ValidRules(rules)
    ensures FinalPct(base, points, rules) == base + AppliedBonus(base, points, rules)
      <==> IsTenth(points) || base + points >= 100.0
  {
    AcceptedBonusTakesEffect(points, reason, rules, base);
    FinalFacts(base, points, rules);
    if base + points >= 100.0 { HundredIsTenth(100); TenthsAdd(base, 100.0 - base); }
  }

  lemma BaseAndBonusAddUp(
      rows: seq<Score>, sections: map<Id, Section>, rules: Rules, points: real, reason: Option<string>)
    requires ValidInput(rows, sections, rules) && ValidateBonus(points, reason, rules) == None && IsHundredth(points)
    ensures var r := Compute(rows, sections, rules, points);
      r.finalPct == r.basePct + r.appliedBonus <==> IsTenth(points) || r.basePct + points >= 100.0
  {
    ResultParts(rows, sections, rules, points);
    SumIsExact(points, reason, rules, Compute(rows, sections, rules, points).basePct);
  }

  const ONE_ROW: seq<Score> := [Score(0, 3, None)]

  const ONE_SECTION: map<Id, Section> := map[0 := General]

  const REASON := "overtime at night"

  lemma ReasonIsLongEnough()
    ensures |Strip(REASON)| >= BONUS_REASON_MIN
  {
    assert "" + REASON + "" == REASON;
    StripFinds("", REASON, "");
  }

  lemma OneRowBase(rules: Rules)
    requires rules == SchemeOf(0.6, 0.4)
    ensures Known(ONE_ROW, ONE_SECTION)
    ensures var general, specialized :=
        SectionPct(ONE_ROW, General, ONE_SECTION, rules), SectionPct(ONE_ROW, Specialized, ONE_SECTION, rules);
      BasePct(general, specialized, rules) == 36.0
  {
    var row := ONE_ROW[0];
    assert ONE_ROW[..0] == [];
    assert Points(row, General, ONE_SECTION, rules) == 3.0 && MaxPoints(row, General, ONE_SECTION, rules) == 5.0;
    assert SectionSum(ONE_ROW, General, ONE_SECTION, rules) == 3.0
        && SectionMax(ONE_ROW, General, ONE_SECTION, rules) == 5.0;
    assert SectionMax(ONE_ROW, Specialized, ONE_SECTION, rules) == 0.0;
    HalfEvenFixesIntegers(600);
    HalfEvenFixesIntegers(360);
    assert Pct(3.0, 5.0) == 60.0;
  }

  lemma SchemeOfIsValid()
    ensures ValidRules(SchemeOf(0.6, 0.4))
  {
    assert 0.6 * 1000.0 == 600.0 && 0.4 * 1000.0 == 400.0;
  }

  /** A quarter of a point on a base of 36 is applied as 0.25, but the final percentage is not 36.25. */
  lemma QuarterPointIsCut()
    ensures var rules := SchemeOf(0.6, 0.4);
      && ValidInput(ONE_ROW, ONE_SECTION, rules) && ValidateBonus(0.25, Some(REASON), rules) == None
      && IsHundredth(0.25)
      && var r := Compute(ONE_ROW, ONE_SECTION, rules, 0.25);
         r.basePct == 36.0 && r.appliedBonus == 0.25 && r.finalPct != 36.25
  {
    var rules := SchemeOf(0.6, 0.4);
    SchemeOfIsValid();
    ReasonIsLongEnough();
    OneRowBase(rules);
    assert (0.25 * 100.0).Floor == 25 && (0.25 * 10.0).Floor == 2;
    BaseAndBonusAddUp(ONE_ROW, ONE_SECTION, rules, 0.25, Some(REASON));
    AcceptedBonusTakesEffect(0.25, Some(REASON), rules, 36.0);
  }

  // ---------------------------------------------------------------- schemes

  /** The checks of a new scheme that go across fields. */
  predicate SchemeCheck(rules: Rules) {
    && Round6(rules.generalWeight + rules.specializedWeight) == 1.0
    && (forall s :: s in rules.evidenceRequiredScores ==> 1 <= s <= 5)
    && rules.evidenceMinWords <= rules.evidenceMaxWords
    && rules.thresholds != []
    && (forall i, j :: 0 <= i < j < |rules.thresholds| ==>
          rules.thresholds[i].upperExclusive < rules.thresholds[j].upperExclusive)
    && rules.thresholds[|rules.thresholds| - 1].upperExclusive > 100.0
    && (forall k :: k in rules.indicatorWeights ==> rules.indicatorWeights[k] > 0.0)
  }

  /** The bounds each field has by itself. */
  predicate FieldBounds(rules: Rules) {
    && 0.0 <= rules.generalWeight <= 1.0 && 0.0 <= rules.specializedWeight <= 1.0 && 0.0 <= rules.bonusMaxPoints <= 20.0
    && 0 <= rules.evidenceMinWords <= 200 && 1 <= rules.evidenceMaxWords <= 1000
    && |rules.thresholds| <= 8
    && forall i :: 0 <= i < |rules.thresholds| ==>
        0.0 < rules.thresholds[i].upperExclusive <= 1000.0 && 1 <= |rules.thresholds[i].text| <= 200
  }

  function Round6(x: real): real {
    HalfEven(x * 1000000.0) as real / 1000000.0
  }

  /** The weight columns keep three decimals, rounding halves up. */
  function StoredWeight(x: real): real {
    (x * 1000.0 + 0.5).Floor as real / 1000.0
  }

  /** The columns for points keep two. */
  function StoredPoints(x: real): real {
    (x * 100.0 + 0.5).Floor as real / 100.0
  }

  function StoredForm(rules: Rules): Rules {
    rules.(generalWeight := StoredWeight(rules.generalWeight),
           specializedWeight := StoredWeight(rules.specializedWeight),
           bonusMaxPoints := StoredPoints(rules.bonusMaxPoints))
  }

  /** By how many thousandths the weights miss 1. */
  function Excess(g: real, s: real): real {
    1000.0 * (g + s - 1.0)
  }

  /** How far the weight, in thousandths, lies above the half at which it is rounded up. */
  function PastHalf(g: real): real {
    g * 1000.0 + 0.5 - (g * 1000.0 + 0.5).Floor as real
  }

  lemma FloorOfDifference(n: int, x: real)
    ensures (n as real + x).Floor == n + x.Floor
  {
  }

  lemma StoredSum(g: real, s: real)
    ensures StoredWeight(g) + StoredWeight(s) == (1001 + (Excess(g, s) - PastHalf(g)).Floor) as real / 1000.0
  {
    var low := (g * 1000.0 + 0.5).Floor;
    var n := 1001 - low;
    var x := Excess(g, s) - PastHalf(g);
    assert s * 1000.0 + 0.5 == n as real + x;
    FloorOfDifference(n, x);
  }

  /** Two weights are stored with the sum 1 exactly when rounding the first one up does not outweigh what
      they miss, and with at most 1 exactly when one half of this holds. */
  lemma StoredSumIsOne(g: real, s: real)
    ensures StoredWeight(g) + StoredWeight(s) == 1.0 <==> Excess(g, s) < PastHalf(g) <= 1.0 + Excess(g, s)
    ensures StoredWeight(g) + StoredWeight(s) <= 1.0 <==> Excess(g, s) < PastHalf(g)
  {
    StoredSum(g, s);
  }

  /** For weights that add up to 1 exactly, it fails exactly for those on a half thousandth. */
  lemma ExactWeightsStoredExactly(g: real, s: real)
    requires g + s == 1.0
    ensures StoredWeight(g) + StoredWeight(s) == 1.0 <==> (g * 1000.0 + 0.5).Floor as real != g * 1000.0 + 0.5
  {
    StoredSumIsOne(g, s);
  }

  lemma StoredWeightIsThousandth(x: real)
    requires x >= 0.0
    ensures IsThousandth(StoredWeight(x)) && StoredWeight(x) >= 0.0 && -0.0005 <= x - StoredWeight(x) < 0.0005
  {
    var n := (x * 1000.0 + 0.5).Floor;
    assert StoredWeight(x) * 1000.0 == n as real;
    WholeNumber(StoredWeight(x) * 1000.0, n);
  }

  /** Points are stored with two decimals, at most half a hundredth away, and two decimals as they are. */
  lemma StoredPointsNearest(x: real)
    ensures IsHundredth(StoredPoints(x)) && -0.005 <= x - StoredPoints(x) < 0.005
    ensures IsHundredth(x) ==> StoredPoints(x) == x
  {
    var n := (x * 100.0 + 0.5).Floor;
    assert StoredPoints(x) * 100.0 == n as real;
    WholeNumber(StoredPoints(x) * 100.0, n);
    if IsHundredth(x) { assert n == (x * 100.0).Floor; }
  }

  lemma StoredExactly(x: real)
    requires IsThousandth(x)
    ensures StoredWeight(x) == x
  {
    assert (x * 1000.0 + 0.5).Floor == (x * 1000.0).Floor;
  }

  lemma ThousandthsNearOne(g: real, s: real)
    requires IsThousandth(g) && IsThousandth(s) && Round6(g + s) == 1.0
    ensures g + s == 1.0
  {
    var x := (g + s) * 1000000.0;
    HalfEvenNearest(x);
    assert x == (1000 * ((g * 1000.0).Floor + (s * 1000.0).Floor)) as real;
    assert HalfEven(x) == 1000000;
  }

  /** Every checked scheme is stored with all that was checked, except for the sum of the weights: it is
      valid exactly when rounding does not carry that above 1, and weights of at most three decimals are
      stored as they are. */
  lemma CheckedSchemeIsStored(rules: Rules)
    requires SchemeCheck(rules) && FieldBounds(rules)
    ensures StoredRules(StoredForm(rules))
    ensures ValidRules(StoredForm(rules)) <==>
        Excess(rules.generalWeight, rules.specializedWeight) < PastHalf(rules.generalWeight)
    ensures StoredForm(rules).generalWeight + StoredForm(rules).specializedWeight == 1.0 <==>
      Excess(rules.generalWeight, rules.specializedWeight) < PastHalf(rules.generalWeight)
        <= 1.0 + Excess(rules.generalWeight, rules.specializedWeight)
    ensures IsThousandth(rules.generalWeight) && IsThousandth(rules.specializedWeight) ==>
      && StoredForm(rules).generalWeight == rules.generalWeight
      && StoredForm(rules).specializedWeight == rules.specializedWeight
      && rules.generalWeight + rules.specializedWeight == 1.0
  {
    StoredWeightIsThousandth(rules.generalWeight);
    StoredWeightIsThousandth(rules.specializedWeight);
    StoredPointsNearest(rules.bonusMaxPoints);
    StoredSumIsOne(rules.generalWeight, rules.specializedWeight);
    if IsThousandth(rules.generalWeight) && IsThousandth(rules.specializedWeight) {
      StoredExactly(rules.generalWeight);
      StoredExactly(rules.specializedWeight);
      ThousandthsNearOne(rules.generalWeight, rules.specializedWeight);
    }
  }

  function SchemeOf(g: real, s: real): Rules {
    Rules(g, s, {1, 5}, 3, 40, [Threshold(60.0, "no"), Threshold(101.0, "yes")], map[], None, 5.0)
  }

  /** Both ways to miss are open to checked schemes: a sum of 1.001 and one of 0.999. */
  lemma FinerWeightsCanDrift()
    ensures var rules := SchemeOf(0.0005, 0.9995);
      && SchemeCheck(rules) && FieldBounds(rules)
      && StoredForm(rules).generalWeight + StoredForm(rules).specializedWeight == 1.001
    ensures var rules := SchemeOf(0.0004997, 0.9994998);
      && SchemeCheck(rules) && FieldBounds(rules)
      && StoredForm(rules).generalWeight + StoredForm(rules).specializedWeight == 0.999
  {
    HalfEvenFixesIntegers(1000000);
    assert (0.0005 * 1000.0 + 0.5).Floor == 1 && (0.9995 * 1000.0 + 0.5).Floor == 1000;
    assert (0.0004997 * 1000.0 + 0.5).Floor == 0 && (0.9994998 * 1000.0 + 0.5).Floor == 999;
    assert (0.0004997 + 0.9994998) * 1000000.0 == 999999.5 && HalfEven(999999.5) == 1000000;
  }
}
