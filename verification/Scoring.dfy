/** From scores to a result: section percentages, the weighted base, the capped bonus, the final
    percentage and its recommendation. Percentages are exact reals rounded where the code rounds. */
module Scoring {
  import opened Domain
  import opened Rounding

  datatype Section = General | Specialized

  datatype Score = Score(indicator: Id, score: int, evidence: Option<string>)

  datatype Threshold = Threshold(upperExclusive: real, text: string)

  /** The scoring rules of one scheme version. */
  datatype Rules = Rules(
    generalWeight: real,
    specializedWeight: real,
    evidenceRequiredScores: set<int>,
    evidenceMinWords: int,
    evidenceMaxWords: int,
    thresholds: seq<Threshold>,
    indicatorWeights: map<Id, real>,
    version: Option<int>,
    bonusMaxPoints: real)

  datatype Result = Result(
    generalPct: real, specializedPct: real, basePct: real, appliedBonus: real, finalPct: real,
    recommendation: string, schemeVersion: Option<int>)

  function WeightFor(rules: Rules, indicator: Id): real {
    if indicator in rules.indicatorWeights then rules.indicatorWeights[indicator] else 1.0
  }

  /** The first band the percentage is below; the last label if there is none. */
  function RecommendationFor(thresholds: seq<Threshold>, pct: real): string
    requires thresholds != []
  {
    if pct < thresholds[0].upperExclusive || |thresholds| == 1 then thresholds[0].text
    else RecommendationFor(thresholds[1..], pct)
  }

  /** A number weighted by another. */
  function Times(x: real, weight: real): real {
    x * weight
  }

  /** A share in percent. */
  function Percent(part: real, whole: real): real
    requires whole != 0.0
  {
    part / whole * 100.0
  }

  // ---------------------------------------------------------------- sums over the rows of a section

  ghost predicate Known(rows: seq<Score>, sections: map<Id, Section>) {
    forall i :: 0 <= i < |rows| ==> rows[i].indicator in sections
  }

  function Points(row: Score, section: Section, sections: map<Id, Section>, rules: Rules): real
    requires row.indicator in sections
  {
    if sections[row.indicator] == section then Times(row.score as real, WeightFor(rules, row.indicator)) else 0.0
  }

  function MaxPoints(row: Score, section: Section, sections: map<Id, Section>, rules: Rules): real
    requires row.indicator in sections
  {
    if sections[row.indicator] == section then Times(5.0, WeightFor(rules, row.indicator)) else 0.0
  }

  function SectionSum(rows: seq<Score>, section: Section, sections: map<Id, Section>, rules: Rules): real
    requires Known(rows, sections)
  {
    if rows == [] then 0.0
    else SectionSum(rows[..|rows| - 1], section, sections, rules) + Points(rows[|rows| - 1], section, sections, rules)
  }

  function SectionMax(rows: seq<Score>, section: Section, sections: map<Id, Section>, rules: Rules): real
    requires Known(rows, sections)
  {
    if rows == [] then 0.0
    else
      SectionMax(rows[..|rows| - 1], section, sections, rules)
      + MaxPoints(rows[|rows| - 1], section, sections, rules)
  }

  /** The share of the attainable points, in percent; an empty section counts as 0. */
  function Pct(sum: real, max: real): real {
    if max != 0.0 then Round1(Percent(sum, max)) else 0.0
  }

  function SectionPct(rows: seq<Score>, section: Section, sections: map<Id, Section>, rules: Rules): real
    requires Known(rows, sections)
  {
    Pct(SectionSum(rows, section, sections, rules), SectionMax(rows, section, sections, rules))
  }

  function Max(x: real, y: real): real { if x >= y then x else y }

  function Min(x: real, y: real): real { if x <= y then x else y }

  function BasePct(generalPct: real, specializedPct: real, rules: Rules): real {
    Round1(Times(generalPct, rules.generalWeight) + Times(specializedPct, rules.specializedWeight))
  }

  /** The bonus that takes effect: capped by the scheme and by what is left to 100. */
  function AppliedBonus(basePct: real, bonus: real, rules: Rules): real {
    Round2(Max(0.0, Min(bonus, Min(rules.bonusMaxPoints, 100.0 - basePct))))
  }

  function FinalPct(basePct: real, bonus: real, rules: Rules): real {
    Round1(basePct + AppliedBonus(basePct, bonus, rules))
  }

  function Compute(rows: seq<Score>, sections: map<Id, Section>, rules: Rules, bonus: real): Result
    requires Known(rows, sections) && rules.thresholds != []
  {
    var general := SectionPct(rows, General, sections, rules);
    var specialized := SectionPct(rows, Specialized, sections, rules);
    var base := BasePct(general, specialized, rules);
    var final := FinalPct(base, bonus, rules);
    Result(general, specialized, base, AppliedBonus(base, bonus, rules), final,
           RecommendationFor(rules.thresholds, final), rules.version)
  }

  lemma OneMoreRow(rows: seq<Score>, section: Section, sections: map<Id, Section>, rules: Rules, n: nat)
    requires Known(rows, sections) && n < |rows|
    ensures SectionSum(rows[..n + 1], section, sections, rules)
      == SectionSum(rows[..n], section, sections, rules) + Points(rows[n], section, sections, rules)
    ensures SectionMax(rows[..n + 1], section, sections, rules)
      == SectionMax(rows[..n], section, sections, rules) + MaxPoints(rows[n], section, sections, rules)
  {
    assert rows[..n + 1][..n] == rows[..n];
  }

  /** One pass over the rows with four running sums. */
  method SectionTotals(rows: seq<Score>, sections: map<Id, Section>, rules: Rules)
    returns (generalSum: real, generalMax: real, specializedSum: real, specializedMax: real)
    requires Known(rows, sections)
    ensures generalSum == SectionSum(rows, General, sections, rules)
    ensures generalMax == SectionMax(rows, General, sections, rules)
    ensures specializedSum == SectionSum(rows, Specialized, sections, rules)
    ensures specializedMax == SectionMax(rows, Specialized, sections, rules)
  {
    generalSum, generalMax, specializedSum, specializedMax := 0.0, 0.0, 0.0, 0.0;
    for i := 0 to |rows|
      invariant generalSum == SectionSum(rows[..i], General, sections, rules)
      invariant generalMax == SectionMax(rows[..i], General, sections, rules)
      invariant specializedSum == SectionSum(rows[..i], Specialized, sections, rules)
      invariant specializedMax == SectionMax(rows[..i], Specialized, sections, rules)
    {
      OneMoreRow(rows, General, sections, rules, i);
      OneMoreRow(rows, Specialized, sections, rules, i);
      var row := rows[i];
      var weight := WeightFor(rules, row.indicator);
      if sections[row.indicator] == General {
        generalSum := generalSum + Times(row.score as real, weight);
        generalMax := generalMax + Times(5.0, weight);
      } else {
        specializedSum := specializedSum + Times(row.score as real, weight);
        specializedMax := specializedMax + Times(5.0, weight);
      }
    }
    assert rows[..|rows|] == rows;
  }

  method ComputeResult(rows: seq<Score>, sections: map<Id, Section>, rules: Rules, bonus: real) returns (result: Result)
    requires Known(rows, sections) && rules.thresholds != []
    ensures result == Compute(rows, sections, rules, bonus)
  {
    var generalSum, generalMax, specializedSum, specializedMax := SectionTotals(rows, sections, rules);
    var generalPct := if generalMax != 0.0 then Round1(Percent(generalSum, generalMax)) else 0.0;
    var specializedPct := if specializedMax != 0.0 then Round1(Percent(specializedSum, specializedMax)) else 0.0;
    var basePct := Round1(Times(generalPct, rules.generalWeight) + Times(specializedPct, rules.specializedWeight));
    var applied := Round2(Max(0.0, Min(bonus, Min(rules.bonusMaxPoints, 100.0 - basePct))));
    var finalPct := Round1(basePct + applied);
    result := Result(generalPct, specializedPct, basePct, applied, finalPct,
                     RecommendationFor(rules.thresholds, finalPct), rules.version);
  }

  // ---------------------------------------------------------------- what schemes and rows must satisfy

  /** What a scheme satisfies once its input was checked and stored; rounded as they are, its weights
      need not add up to 1 any more. */
  ghost predicate StoredRules(rules: Rules) {
    && rules.generalWeight >= 0.0 && rules.specializedWeight >= 0.0
    && IsThousandth(rules.generalWeight) && IsThousandth(rules.specializedWeight)
    && rules.bonusMaxPoints >= 0.0 && IsHundredth(rules.bonusMaxPoints)
    && rules.thresholds != []
    && (forall i, j :: 0 <= i < j < |rules.thresholds| ==>
          rules.thresholds[i].upperExclusive < rules.thresholds[j].upperExclusive)
    && rules.thresholds[|rules.thresholds| - 1].upperExclusive > 100.0
    && (forall k :: k in rules.indicatorWeights ==> rules.indicatorWeights[k] > 0.0)
  }

  /** The weights add up to 1 at most: what keeps a percentage a percentage. */
  ghost predicate ValidRules(rules: Rules) {
    StoredRules(rules) && rules.generalWeight + rules.specializedWeight <= 1.0
  }

  ghost predicate ValidScores(rows: seq<Score>) {
    forall i :: 0 <= i < |rows| ==> 1 <= rows[i].score <= 5
  }
}
