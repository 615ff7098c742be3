/** What the scoring arithmetic promises: the final percentage is a percentage, it moves with the
    scores and the bonus, the order of rows and the scale of a section's weights do not matter, and
    the recommendation table has no gap. */
module ScoringLaws {
  import opened Domain
  import opened Rounding
  import opened Scoring

  // ---------------------------------------------------------------- arithmetic on quotients

  lemma PercentMonotone(a: real, b: real, m: real)
    requires a <= b && m > 0.0
    ensures Percent(a, m) <= Percent(b, m)
  {
    var d := b - a;
    assert b / m == a / m + d / m;
    assert d / m >= 0.0;
  }

  lemma PercentOfSelf(m: real)
    requires m > 0.0
    ensures Percent(m, m) == 100.0 && Percent(0.0, m) == 0.0
  {
    assert m / m == 1.0;
  }

  lemma PercentScales(c: real, s: real, m: real)
    requires c > 0.0 && m != 0.0
    ensures Times(c, m) != 0.0 && Percent(Times(c, s), Times(c, m)) == Percent(s, m)
  {
    var q := s / m;
    assert q * m == s;
    assert q * (c * m) == c * s;
  }

  lemma TimesMonotone(x: real, y: real, w: real)
    requires x <= y && w >= 0.0
    ensures Times(x, w) <= Times(y, w)
  {
  }

  lemma TimesNonNegative(x: real, w: real)
    requires x >= 0.0 && w >= 0.0
    ensures Times(x, w) >= 0.0
  {
  }

  lemma TimesAtMostHundred(x: real, w: real)
    requires x <= 100.0 && w >= 0.0
    ensures Times(x, w) <= 100.0 * w
  {
  }

  lemma TimesDistributes(x: real, v: real, w: real)
    ensures Times(x, v) + Times(x, w) == Times(x, v + w)
  {
  }

  lemma TimesCommute(x: real, f: real, w: real)
    ensures Times(x, Times(f, w)) == Times(f, Times(x, w))
  {
  }

  lemma TimesOne(x: real)
    ensures Times(1.0, x) == x
  {
  }

  lemma PctMonotone(a: real, b: real, max: real)
    requires a <= b && max >= 0.0
    ensures Pct(a, max) <= Pct(b, max)
  {
    if max > 0.0 {
      PercentMonotone(a, b, max);
      Round1Monotone(Percent(a, max), Percent(b, max));
    }
  }

  lemma PctBounds(sum: real, max: real)
    requires 0.0 <= sum <= max
    ensures 0.0 <= Pct(sum, max) <= 100.0
  {
    if max > 0.0 {
      PercentMonotone(0.0, sum, max);
      PercentMonotone(sum, max, max);
      PercentOfSelf(max);
      RoundedPercentage(Percent(sum, max));
    }
  }

  lemma RoundedPercentage(x: real)
    requires 0.0 <= x <= 100.0
    ensures 0.0 <= Round1(x) <= 100.0 && IsTenth(Round1(x))
  {
    Round1Nearest(x);
    Round1Monotone(x, 100.0);
    Round1Monotone(0.0, x);
    HundredIsTenth(100);
    Round1Fixes(100.0);
    HundredIsTenth(0);
    Round1Fixes(0.0);
  }

  // ---------------------------------------------------------------- sections

  ghost predicate PositiveWeights(rules: Rules) {
    forall k :: k in rules.indicatorWeights ==> rules.indicatorWeights[k] > 0.0
  }

  lemma PointsBounds(row: Score, section: Section, sections: map<Id, Section>, rules: Rules)
    requires row.indicator in sections && 1 <= row.score <= 5 && PositiveWeights(rules)
    ensures 0.0 <= Points(row, section, sections, rules) <= MaxPoints(row, section, sections, rules)
  {
    var w := WeightFor(rules, row.indicator);
    TimesNonNegative(row.score as real, w);
    TimesMonotone(row.score as real, 5.0, w);
  }

  lemma {:induction false} SectionBounds(rows: seq<Score>, section: Section, sections: map<Id, Section>, rules: Rules)
    requires Known(rows, sections) && ValidScores(rows) && PositiveWeights(rules)
    ensures 0.0 <= SectionSum(rows, section, sections, rules) <= SectionMax(rows, section, sections, rules)
  {
    if rows != [] {
      SectionBounds(rows[..|rows| - 1], section, sections, rules);
      PointsBounds(rows[|rows| - 1], section, sections, rules);
    }
  }

  lemma SectionPctBounds(rows: seq<Score>, section: Section, sections: map<Id, Section>, rules: Rules)
    requires Known(rows, sections) && ValidScores(rows) && PositiveWeights(rules)
    ensures 0.0 <= SectionPct(rows, section, sections, rules) <= 100.0
  {
    SectionBounds(rows, section, sections, rules);
    PctBounds(SectionSum(rows, section, sections, rules), SectionMax(rows, section, sections, rules));
  }

  // ---------------------------------------------------------------- base and bonus

  lemma WeightedMeanBounds(g: real, s: real, gw: real, sw: real)
    requires 0.0 <= g <= 100.0 && 0.0 <= s <= 100.0 && gw >= 0.0 && sw >= 0.0 && gw + sw <= 1.0
    ensures 0.0 <= Times(g, gw) + Times(s, sw) <= 100.0
  {
    TimesNonNegative(g, gw);
    TimesNonNegative(s, sw);
    TimesAtMostHundred(g, gw);
    TimesAtMostHundred(s, sw);
  }

  lemma BaseBounds(g: real, s: real, rules: Rules)
    requires 0.0 <= g <= 100.0 && 0.0 <= s <= 100.0 && ValidRules(rules)
    ensures 0.0 <= BasePct(g, s, rules) <= 100.0 && IsTenth(BasePct(g, s, rules))
  {
    WeightedMeanBounds(g, s, rules.generalWeight, rules.specializedWeight);
    RoundedPercentage(Times(g, rules.generalWeight) + Times(s, rules.specializedWeight));
  }

  lemma BaseMonotone(g: real, s: real, g': real, s': real, rules: Rules)
    requires g <= g' && s <= s' && ValidRules(rules)
    ensures BasePct(g, s, rules) <= BasePct(g', s', rules)
  {
    TimesMonotone(g, g', rules.generalWeight);
    TimesMonotone(s, s', rules.specializedWeight);
    Round1Monotone(Times(g, rules.generalWeight) + Times(s, rules.specializedWeight),
                   Times(g', rules.generalWeight) + Times(s', rules.specializedWeight));
  }

  lemma RestIsHundredth(base: real)
    requires IsTenth(base)
    ensures IsHundredth(100.0 - base)
  {
    HundredIsTenth(100);
    TenthsAdd(base, 100.0 - base);
    TenthIsHundredth(100.0 - base);
  }

  /** The bonus never takes the sum past 100, and fills it up to 100 when the cap bites. */
  lemma BonusFits(base: real, bonus: real, rules: Rules)
    requires IsTenth(base) && 0.0 <= base <= 100.0 && ValidRules(rules)
    ensures 0.0 <= AppliedBonus(base, bonus, rules) && base + AppliedBonus(base, bonus, rules) <= 100.0
    ensures 100.0 - base <= bonus && 100.0 - base <= rules.bonusMaxPoints
      ==> base + AppliedBonus(base, bonus, rules) == 100.0
  {
    var capped := Max(0.0, Min(bonus, Min(rules.bonusMaxPoints, 100.0 - base)));
    RestIsHundredth(base);
    Round2Fixes(100.0 - base);
    Round2Monotone(capped, 100.0 - base);
    Round2Monotone(0.0, capped);
    Round2Fixes(0.0);
  }

  lemma FinalFacts(base: real, bonus: real, rules: Rules)
    requires IsTenth(base) && 0.0 <= base <= 100.0 && ValidRules(rules)
    ensures var applied, final := AppliedBonus(base, bonus, rules), FinalPct(base, bonus, rules);
      && base <= final <= 100.0
      && -0.05 <= final - (base + applied) <= 0.05
      && (final == base + applied <==> IsTenth(applied))
  {
    var applied := AppliedBonus(base, bonus, rules);
    BonusFits(base, bonus, rules);
    Round1Nearest(base + applied);
    Round1Fixes(base + applied);
    TenthsAdd(base, applied);
    Round1Monotone(base, base + applied);
    Round1Fixes(base);
    Round1Monotone(base + applied, 100.0);
    HundredIsTenth(100);
    Round1Fixes(100.0);
  }

  lemma FinalMonotone(base: real, bonus: real, base': real, bonus': real, rules: Rules)
    requires IsTenth(base) && IsTenth(base') && 0.0 <= base <= base' <= 100.0 && ValidRules(rules)
    requires bonus <= bonus'
    ensures FinalPct(base, bonus, rules) <= FinalPct(base', bonus', rules)
  {
    BonusFits(base, bonus, rules);
    BonusFits(base', bonus', rules);
    var capped := Max(0.0, Min(bonus, Min(rules.bonusMaxPoints, 100.0 - base)));
    var capped' := Max(0.0, Min(bonus', Min(rules.bonusMaxPoints, 100.0 - base')));
    if !(100.0 - base' <= bonus' && 100.0 - base' <= rules.bonusMaxPoints) {
      assert capped <= capped';
      Round2Monotone(capped, capped');
    }
    Round1Monotone(base + AppliedBonus(base, bonus, rules), base' + AppliedBonus(base', bonus', rules));
  }

  // ---------------------------------------------------------------- recommendation bands

  /** The index of the band `RecommendationFor` stops at. */
  ghost function Band(thresholds: seq<Threshold>, pct: real): nat
    requires thresholds != []
  {
    if pct < thresholds[0].upperExclusive || |thresholds| == 1 then 0 else 1 + Band(thresholds[1..], pct)
  }

  /** The band is the first one whose bound the percentage is below; the fallback is not used when
      the last bound is above the percentage. */
  lemma {:induction false} BandIsFirstAbove(thresholds: seq<Threshold>, pct: real)
    requires thresholds != [] && pct < thresholds[|thresholds| - 1].upperExclusive
    ensures var b := Band(thresholds, pct);
      && b < |thresholds| && RecommendationFor(thresholds, pct) == thresholds[b].text
      && pct < thresholds[b].upperExclusive
      && forall i :: 0 <= i < b ==> thresholds[i].upperExclusive <= pct
  {
    if !(pct < thresholds[0].upperExclusive || |thresholds| == 1) {
      BandIsFirstAbove(thresholds[1..], pct);
      var b := Band(thresholds, pct);
      forall i | 0 <= i < b ensures thresholds[i].upperExclusive <= pct {
        if i > 0 { assert thresholds[i] == thresholds[1..][i - 1]; }
      }
    }
  }

  lemma BandMonotone(thresholds: seq<Threshold>, p: real, q: real)
    requires thresholds != [] && p <= q < thresholds[|thresholds| - 1].upperExclusive
    ensures Band(thresholds, p) <= Band(thresholds, q)
  {
    BandIsFirstAbove(thresholds, p);
    BandIsFirstAbove(thresholds, q);
  }

  // ---------------------------------------------------------------- the result as a whole

  ghost predicate ValidInput(rows: seq<Score>, sections: map<Id, Section>, rules: Rules) {
    Known(rows, sections) && ValidScores(rows) && ValidRules(rules)
  }

  lemma ResultParts(rows: seq<Score>, sections: map<Id, Section>, rules: Rules, bonus: real)
    requires ValidInput(rows, sections, rules)
    ensures var r := Compute(rows, sections, rules, bonus);
      && 0.0 <= r.generalPct <= 100.0 && 0.0 <= r.specializedPct <= 100.0
      && r.basePct == BasePct(r.generalPct, r.specializedPct, rules)
      && 0.0 <= r.basePct <= 100.0 && IsTenth(r.basePct)
      && r.appliedBonus == AppliedBonus(r.basePct, bonus, rules)
      && r.finalPct == FinalPct(r.basePct, bonus, rules)
  {
    SectionPctBounds(rows, General, sections, rules);
    SectionPctBounds(rows, Specialized, sections, rules);
    BaseBounds(SectionPct(rows, General, sections, rules), SectionPct(rows, Specialized, sections, rules), rules);
  }

  /** The final percentage lies between the base and 100, within 0.05 of base plus applied bonus, and
      is their exact sum if and only if the applied bonus is a multiple of 0.1. */
  lemma FinalIsPercentage(rows: seq<Score>, sections: map<Id, Section>, rules: Rules, bonus: real)
    requires ValidInput(rows, sections, rules)
    ensures var r := Compute(rows, sections, rules, bonus);
      && 0.0 <= r.basePct <= r.finalPct <= 100.0
      && -0.05 <= r.finalPct - (r.basePct + r.appliedBonus) <= 0.05
      && (r.finalPct == r.basePct + r.appliedBonus <==> IsTenth(r.appliedBonus))
  {
    ResultParts(rows, sections, rules, bonus);
    FinalFacts(Compute(rows, sections, rules, bonus).basePct, bonus, rules);
  }

  // ---------------------------------------------------------------- weights that add up to more than 1

  const FULL_MARKS: seq<Score> := [Score(0, 5, None), Score(1, 5, None)]

  const TWO_SECTIONS: map<Id, Section> := map[0 := General, 1 := Specialized]

  lemma FullMarksIn(section: Section, rules: Rules)
    requires PositiveWeights(rules)
    ensures Known(FULL_MARKS, TWO_SECTIONS) && SectionPct(FULL_MARKS, section, TWO_SECTIONS, rules) == 100.0
  {
    var first := FULL_MARKS[..1];
    assert first == [FULL_MARKS[0]] && first[..0] == [];
    var k := if section == General then 0 else 1;
    assert SectionSum(first, section, TWO_SECTIONS, rules) == Points(FULL_MARKS[0], section, TWO_SECTIONS, rules);
    assert SectionMax(first, section, TWO_SECTIONS, rules) == MaxPoints(FULL_MARKS[0], section, TWO_SECTIONS, rules);
    var max := SectionMax(FULL_MARKS, section, TWO_SECTIONS, rules);
    assert max == Times(5.0, WeightFor(rules, k)) == SectionSum(FULL_MARKS, section, TWO_SECTIONS, rules);
    TimesPositive(5.0, WeightFor(rules, k));
    PercentOfSelf(max);
    HundredIsTenth(100);
    Round1Fixes(100.0);
  }

  lemma TimesPositive(x: real, w: real)
    requires x > 0.0 && w > 0.0
    ensures Times(x, w) > 0.0
  {
  }

  lemma FullMarksBase(rules: Rules)
    requires IsThousandth(rules.generalWeight) && IsThousandth(rules.specializedWeight)
    ensures BasePct(100.0, 100.0, rules) == 100.0 * (rules.generalWeight + rules.specializedWeight)
  {
    var sum := rules.generalWeight + rules.specializedWeight;
    WholeNumber(sum * 1000.0, (rules.generalWeight * 1000.0).Floor + (rules.specializedWeight * 1000.0).Floor);
    assert 100.0 * sum * 10.0 == sum * 1000.0;
    assert Times(100.0, rules.generalWeight) + Times(100.0, rules.specializedWeight) == 100.0 * sum;
    Round1Fixes(100.0 * sum);
  }

  /** Full marks under weights of more than 1 give more than 100 percent, and no bonus is needed for it. */
  lemma OverweightExceeds(rules: Rules)
    requires StoredRules(rules) && rules.generalWeight + rules.specializedWeight > 1.0
    ensures Known(FULL_MARKS, TWO_SECTIONS) && ValidScores(FULL_MARKS)
    ensures Compute(FULL_MARKS, TWO_SECTIONS, rules, 0.0).finalPct
      == 100.0 * (rules.generalWeight + rules.specializedWeight)
  {
    FullMarksIn(General, rules);
    FullMarksIn(Specialized, rules);
    FullMarksBase(rules);
    Round2Fixes(0.0);
    Round1Nearest(Times(100.0, rules.generalWeight) + Times(100.0, rules.specializedWeight));
    Round1Fixes(BasePct(100.0, 100.0, rules));
  }

  ghost predicate AlwaysPercentage(rules: Rules)
    requires rules.thresholds != []
  {
    forall rows, sections, bonus :: Known(rows, sections) && ValidScores(rows) ==>
      0.0 <= Compute(rows, sections, rules, bonus).finalPct <= 100.0
  }

  /** A stored scheme gives percentages, whatever the scores, exactly when its weights do not exceed 1. */
  lemma PercentageIffWeightsFit(rules: Rules)
    requires StoredRules(rules)
    ensures AlwaysPercentage(rules) <==> rules.generalWeight + rules.specializedWeight <= 1.0
  {
    if rules.generalWeight + rules.specializedWeight <= 1.0 {
      forall rows, sections, bonus | Known(rows, sections) && ValidScores(rows)
        ensures 0.0 <= Compute(rows, sections, rules, bonus).finalPct <= 100.0
      {
        FinalIsPercentage(rows, sections, rules, bonus);
      }
    } else {
      OverweightExceeds(rules);
    }
  }

  lemma PctNearest(sum: real, max: real)
    requires max != 0.0
    ensures -0.05 <= Pct(sum, max) - sum / max * 100.0 <= 0.05
  {
    Round1Nearest(Percent(sum, max));
  }

  /** What the percentages are, up to rounding: each section's is its points over its attainable points,
      and the base is the mean of the two by the scheme's weights. */
  lemma ResultIsTheWeightedMean(rows: seq<Score>, sections: map<Id, Section>, rules: Rules, bonus: real)
    requires Known(rows, sections) && rules.thresholds != []
    ensures var r := Compute(rows, sections, rules, bonus);
      && SectionNearest(rows, General, sections, rules, r.generalPct)
      && SectionNearest(rows, Specialized, sections, rules, r.specializedPct)
      && var mean := Times(r.generalPct, rules.generalWeight) + Times(r.specializedPct, rules.specializedWeight);
         -0.05 <= r.basePct - mean <= 0.05
  {
    var r := Compute(rows, sections, rules, bonus);
    SectionIsNearest(rows, General, sections, rules);
    SectionIsNearest(rows, Specialized, sections, rules);
    BaseNearest(r.generalPct, r.specializedPct, rules);
  }

  lemma BaseNearest(g: real, s: real, rules: Rules)
    ensures -0.05 <= BasePct(g, s, rules) - (Times(g, rules.generalWeight) + Times(s, rules.specializedWeight)) <= 0.05
  {
    Round1Nearest(Times(g, rules.generalWeight) + Times(s, rules.specializedWeight));
  }

  ghost predicate SectionNearest(
      rows: seq<Score>, section: Section, sections: map<Id, Section>, rules: Rules, pct: real)
    requires Known(rows, sections)
  {
    var sum, max := SectionSum(rows, section, sections, rules), SectionMax(rows, section, sections, rules);
    if max == 0.0 then pct == 0.0 else -0.05 <= pct - sum / max * 100.0 <= 0.05
  }

  lemma SectionIsNearest(rows: seq<Score>, section: Section, sections: map<Id, Section>, rules: Rules)
    requires Known(rows, sections)
    ensures SectionNearest(rows, section, sections, rules, SectionPct(rows, section, sections, rules))
  {
    var sum, max := SectionSum(rows, section, sections, rules), SectionMax(rows, section, sections, rules);
    if max != 0.0 { PctNearest(sum, max); }
  }

  /** With all numbers given to two decimals, the smallest of bonus, cap and room up to 100 takes effect,
      without any rounding. */
  lemma SmallestLimitApplies(base: real, bonus: real, rules: Rules)
    requires IsTenth(base) && base <= 100.0 && IsHundredth(bonus) && IsHundredth(rules.bonusMaxPoints)
    requires bonus >= 0.0 && rules.bonusMaxPoints >= 0.0
    ensures var applied := AppliedBonus(base, bonus, rules);
      && applied <= bonus && applied <= rules.bonusMaxPoints && applied <= 100.0 - base
      && (applied == bonus || applied == rules.bonusMaxPoints || applied == 100.0 - base)
  {
    RestIsHundredth(base);
    Round2Fixes(bonus);
    Round2Fixes(rules.bonusMaxPoints);
    Round2Fixes(100.0 - base);
  }

  /** Every percentage gets the label of a band it is below; the fallback is never taken. */
  lemma EveryResultHasItsBand(rows: seq<Score>, sections: map<Id, Section>, rules: Rules, bonus: real)
    requires ValidInput(rows, sections, rules)
    ensures var r := Compute(rows, sections, rules, bonus);
      var b := Band(rules.thresholds, r.finalPct);
      && b < |rules.thresholds| && r.recommendation == rules.thresholds[b].text
      && r.finalPct < rules.thresholds[b].upperExclusive
      && forall i :: 0 <= i < b ==> rules.thresholds[i].upperExclusive <= r.finalPct
  {
    FinalIsPercentage(rows, sections, rules, bonus);
    BandIsFirstAbove(rules.thresholds, Compute(rows, sections, rules, bonus).finalPct);
  }

  // ---------------------------------------------------------------- better scores, better result

  /** The same questions answered at least as well. */
  ghost predicate NoWorse(lo: seq<Score>, hi: seq<Score>) {
    |lo| == |hi| && forall i :: 0 <= i < |lo| ==> lo[i].indicator == hi[i].indicator && lo[i].score <= hi[i].score
  }

  lemma {:induction false} SectionRises(
      lo: seq<Score>, hi: seq<Score>, section: Section, sections: map<Id, Section>, rules: Rules)
    requires NoWorse(lo, hi) && Known(lo, sections) && Known(hi, sections) && PositiveWeights(rules)
    ensures SectionSum(lo, section, sections, rules) <= SectionSum(hi, section, sections, rules)
    ensures SectionMax(lo, section, sections, rules) == SectionMax(hi, section, sections, rules)
  {
    if lo != [] {
      var n := |lo| - 1;
      SectionRises(lo[..n], hi[..n], section, sections, rules);
      PointsRise(lo[n], hi[n], section, sections, rules);
    }
  }

  lemma PointsRise(lo: Score, hi: Score, section: Section, sections: map<Id, Section>, rules: Rules)
    requires lo.indicator == hi.indicator && lo.score <= hi.score && lo.indicator in sections && PositiveWeights(rules)
    ensures Points(lo, section, sections, rules) <= Points(hi, section, sections, rules)
    ensures MaxPoints(lo, section, sections, rules) == MaxPoints(hi, section, sections, rules)
  {
    var w := WeightFor(rules, lo.indicator);
    TimesMonotone(lo.score as real, hi.score as real, w);
  }

  lemma SectionPctRises(lo: seq<Score>, hi: seq<Score>, section: Section, sections: map<Id, Section>, rules: Rules)
    requires NoWorse(lo, hi) && ValidInput(lo, sections, rules) && ValidInput(hi, sections, rules)
    ensures SectionPct(lo, section, sections, rules) <= SectionPct(hi, section, sections, rules)
  {
    SectionRises(lo, hi, section, sections, rules);
    SectionBounds(lo, section, sections, rules);
    PctMonotone(SectionSum(lo, section, sections, rules), SectionSum(hi, section, sections, rules),
                SectionMax(lo, section, sections, rules));
  }

  /** Raising scores or the bonus never lowers the final percentage, nor the recommendation's band. */
  lemma ResultRises(lo: seq<Score>, hi: seq<Score>, sections: map<Id, Section>, rules: Rules, bonus: real, bonus': real)
    requires NoWorse(lo, hi) && ValidInput(lo, sections, rules) && ValidInput(hi, sections, rules)
    requires bonus <= bonus'
    ensures var r, r' := Compute(lo, sections, rules, bonus), Compute(hi, sections, rules, bonus');
      && r.finalPct <= r'.finalPct
      && Band(rules.thresholds, r.finalPct) <= Band(rules.thresholds, r'.finalPct)
  {
    var r, r' := Compute(lo, sections, rules, bonus), Compute(hi, sections, rules, bonus');
    SectionPctRises(lo, hi, General, sections, rules);
    SectionPctRises(lo, hi, Specialized, sections, rules);
    ResultParts(lo, sections, rules, bonus);
    ResultParts(hi, sections, rules, bonus');
    BaseMonotone(r.generalPct, r.specializedPct, r'.generalPct, r'.specializedPct, rules);
    FinalMonotone(r.basePct, bonus, r'.basePct, bonus', rules);
    FinalIsPercentage(hi, sections, rules, bonus');
    BandMonotone(rules.thresholds, r.finalPct, r'.finalPct);
  }

  // ---------------------------------------------------------------- order and scale do not matter

  function Without(rows: seq<Score>, i: nat): seq<Score>
    requires i < |rows|
  {
    rows[..i] + rows[i + 1..]
  }

  lemma {:induction false} RemoveRow(
      rows: seq<Score>, i: nat, section: Section, sections: map<Id, Section>, rules: Rules)
    requires Known(rows, sections) && i < |rows|
    ensures Known(Without(rows, i), sections)
    ensures SectionSum(rows, section, sections, rules)
      == SectionSum(Without(rows, i), section, sections, rules) + Points(rows[i], section, sections, rules)
    ensures SectionMax(rows, section, sections, rules)
      == SectionMax(Without(rows, i), section, sections, rules) + MaxPoints(rows[i], section, sections, rules)
    decreases |rows|
  {
    var n := |rows| - 1;
    if i == n {
      assert Without(rows, i) == rows[..n];
    } else {
      RemoveRow(rows[..n], i, section, sections, rules);
      assert Without(rows, i)[..n - 1] == Without(rows[..n], i);
      assert Without(rows, i)[n - 1] == rows[n];
    }
  }

  lemma WithoutOne(rows: seq<Score>, i: nat)
    requires i < |rows|
    ensures multiset(rows) == multiset(Without(rows, i)) + multiset{rows[i]}
  {
    assert rows == rows[..i] + [rows[i]] + rows[i + 1..];
  }

  lemma CancelOne(a: multiset<Score>, b: multiset<Score>, x: Score)
    requires a + multiset{x} == b + multiset{x}
    ensures a == b
  {
    assert a == (a + multiset{x}) - multiset{x} && b == (b + multiset{x}) - multiset{x};
  }

  lemma {:induction false} SumsIgnoreOrder(
      a: seq<Score>, b: seq<Score>, section: Section, sections: map<Id, Section>, rules: Rules)
    requires multiset(a) == multiset(b) && Known(a, sections) && Known(b, sections)
    ensures SectionSum(a, section, sections, rules) == SectionSum(b, section, sections, rules)
    ensures SectionMax(a, section, sections, rules) == SectionMax(b, section, sections, rules)
    decreases |a|
  {
    if a == [] {
      assert |multiset(b)| == 0;
    } else {
      var n := |a| - 1;
      assert a == a[..n] + [a[n]] && a[n] in multiset(b);
      var j :| 0 <= j < |b| && b[j] == a[n];
      assert Without(a, n) == a[..n];
      WithoutOne(a, n);
      WithoutOne(b, j);
      CancelOne(multiset(a[..n]), multiset(Without(b, j)), a[n]);
      RemoveRow(b, j, section, sections, rules);
      SumsIgnoreOrder(a[..n], Without(b, j), section, sections, rules);
    }
  }

  /** The query returns score rows in no particular order; the result does not depend on it. */
  lemma ResultIgnoresOrder(a: seq<Score>, b: seq<Score>, sections: map<Id, Section>, rules: Rules, bonus: real)
    requires multiset(a) == multiset(b) && Known(a, sections) && Known(b, sections) && rules.thresholds != []
    ensures Compute(a, sections, rules, bonus) == Compute(b, sections, rules, bonus)
  {
    SumsIgnoreOrder(a, b, General, sections, rules);
    SumsIgnoreOrder(a, b, Specialized, sections, rules);
  }

  /** Indicator weights of one section multiplied by `factor`, everything else unchanged. */
  ghost predicate SectionScaled(
      rules: Rules, scaled: Rules, section: Section, sections: map<Id, Section>, factor: real) {
    && scaled == rules.(indicatorWeights := scaled.indicatorWeights)
    && forall k :: k in sections ==>
         if sections[k] == section
         then
           && k in scaled.indicatorWeights
           && scaled.indicatorWeights[k]
             == factor * (if k in rules.indicatorWeights then rules.indicatorWeights[k] else 1.0)
         else
           && (k in scaled.indicatorWeights <==> k in rules.indicatorWeights)
           && (k in rules.indicatorWeights ==> scaled.indicatorWeights[k] == rules.indicatorWeights[k])
  }

  /** The factor a section's sums are multiplied by. */
  function Factor(s: Section, section: Section, factor: real): real {
    if s == section then factor else 1.0
  }

  lemma {:induction false} SumsScale(rows: seq<Score>, s: Section, section: Section, sections: map<Id, Section>,
                                     rules: Rules, scaled: Rules, factor: real)
    requires Known(rows, sections) && SectionScaled(rules, scaled, section, sections, factor)
    ensures SectionSum(rows, s, sections, scaled)
      == Times(Factor(s, section, factor), SectionSum(rows, s, sections, rules))
    ensures SectionMax(rows, s, sections, scaled)
      == Times(Factor(s, section, factor), SectionMax(rows, s, sections, rules))
  {
    if rows != [] {
      var n, f := |rows| - 1, Factor(s, section, factor);
      SumsScale(rows[..n], s, section, sections, rules, scaled, factor);
      PointsScale(rows[n], s, section, sections, rules, scaled, factor);
      TimesDistributes(f, SectionSum(rows[..n], s, sections, rules), Points(rows[n], s, sections, rules));
      TimesDistributes(f, SectionMax(rows[..n], s, sections, rules), MaxPoints(rows[n], s, sections, rules));
    }
  }

  lemma PointsScale(row: Score, s: Section, section: Section, sections: map<Id, Section>,
                    rules: Rules, scaled: Rules, factor: real)
    requires row.indicator in sections && SectionScaled(rules, scaled, section, sections, factor)
    ensures Points(row, s, sections, scaled) == Times(Factor(s, section, factor), Points(row, s, sections, rules))
    ensures MaxPoints(row, s, sections, scaled) == Times(Factor(s, section, factor), MaxPoints(row, s, sections, rules))
  {
    TimesCommute(row.score as real, factor, WeightFor(rules, row.indicator));
    TimesCommute(5.0, factor, WeightFor(rules, row.indicator));
    TimesOne(Points(row, s, sections, rules));
    TimesOne(MaxPoints(row, s, sections, rules));
  }

  lemma PctScales(sum: real, max: real, factor: real)
    requires factor > 0.0
    ensures Pct(Times(factor, sum), Times(factor, max)) == Pct(sum, max)
  {
    if max != 0.0 { PercentScales(factor, sum, max); }
  }

  lemma SectionPctIgnoresScale(rows: seq<Score>, s: Section, section: Section, sections: map<Id, Section>,
                               rules: Rules, scaled: Rules, factor: real)
    requires Known(rows, sections) && SectionScaled(rules, scaled, section, sections, factor) && factor > 0.0
    ensures SectionPct(rows, s, sections, scaled) == SectionPct(rows, s, sections, rules)
  {
    SumsScale(rows, s, section, sections, rules, scaled, factor);
    PctScales(SectionSum(rows, s, sections, rules), SectionMax(rows, s, sections, rules), Factor(s, section, factor));
  }

  /** Only the proportions between the weights of a section matter. */
  lemma ResultIgnoresScale(rows: seq<Score>, section: Section, sections: map<Id, Section>,
                           rules: Rules, scaled: Rules, factor: real, bonus: real)
    requires Known(rows, sections) && SectionScaled(rules, scaled, section, sections, factor)
    requires factor > 0.0 && rules.thresholds != []
    ensures Compute(rows, sections, scaled, bonus) == Compute(rows, sections, rules, bonus)
  {
    SectionPctIgnoresScale(rows, General, section, sections, rules, scaled, factor);
    SectionPctIgnoresScale(rows, Specialized, section, sections, rules, scaled, factor);
  }
}
