/** What the weights of a scheme mean, said of the map itself: a question of weight n counts like n
    questions, one that is not in the map like a single one, and without weights a percentage is the share
    of the points. */
module Weights {
  import opened Domain
  import opened Rounding
  import opened Scoring
  import opened ScoringLaws
  import opened ScoreChecks

  lemma SumsOfOneMore(rows: seq<Score>, row: Score, section: Section, sections: map<Id, Section>, rules: Rules)
    requires Known(rows, sections) && row.indicator in sections
    ensures Known(rows + [row], sections)
    ensures SectionSum(rows + [row], section, sections, rules)
      == SectionSum(rows, section, sections, rules) + Points(row, section, sections, rules)
    ensures SectionMax(rows + [row], section, sections, rules)
      == SectionMax(rows, section, sections, rules) + MaxPoints(row, section, sections, rules)
  {
    var more := rows + [row];
    assert more[..|more| - 1] == rows && more[|more| - 1] == row;
  }

  // ---------------------------------------------------------------- no weights at all

  function Unweighted(rules: Rules): Rules {
    rules.(indicatorWeights := map[])
  }

  /** The points given in a section, and to how many of its questions. */
  function GivenPoints(rows: seq<Score>, section: Section, sections: map<Id, Section>): int {
    if rows == [] then 0
    else
      var row := rows[0];
      (if row.indicator in sections && sections[row.indicator] == section then row.score else 0)
      + GivenPoints(rows[1..], section, sections)
  }

  function Answers(rows: seq<Score>, section: Section, sections: map<Id, Section>): nat {
    if rows == [] then 0
    else
      (if rows[0].indicator in sections && sections[rows[0].indicator] == section then 1 else 0)
      + Answers(rows[1..], section, sections)
  }

  lemma {:induction false} CountsFromTheBack(rows: seq<Score>, row: Score, section: Section, sections: map<Id, Section>)
    requires row.indicator in sections
    ensures GivenPoints(rows + [row], section, sections)
      == GivenPoints(rows, section, sections) + (if sections[row.indicator] == section then row.score else 0)
    ensures Answers(rows + [row], section, sections)
      == Answers(rows, section, sections) + (if sections[row.indicator] == section then 1 else 0)
  {
    if rows == [] {
      assert rows + [row] == [row] && [row][1..] == [];
    } else {
      assert (rows + [row])[1..] == rows[1..] + [row];
      CountsFromTheBack(rows[1..], row, section, sections);
    }
  }

  lemma PlainPoints(row: Score, section: Section, sections: map<Id, Section>, rules: Rules)
    requires row.indicator in sections && rules.indicatorWeights == map[]
    ensures Points(row, section, sections, rules)
      == if sections[row.indicator] == section then row.score as real else 0.0
    ensures MaxPoints(row, section, sections, rules) == if sections[row.indicator] == section then 5.0 else 0.0
  {
  }

  lemma {:induction false} PlainSums(rows: seq<Score>, section: Section, sections: map<Id, Section>, rules: Rules)
    requires Known(rows, sections) && rules.indicatorWeights == map[]
    ensures SectionSum(rows, section, sections, rules) == GivenPoints(rows, section, sections) as real
    ensures SectionMax(rows, section, sections, rules) == (5 * Answers(rows, section, sections)) as real
  {
    if rows != [] {
      var n := |rows| - 1;
      PlainSums(rows[..n], section, sections, rules);
      SumsOfOneMore(rows[..n], rows[n], section, sections, rules);
      PlainPoints(rows[n], section, sections, rules);
      CountsFromTheBack(rows[..n], rows[n], section, sections);
      assert rows == rows[..n] + [rows[n]];
    }
  }

  // ---------------------------------------------------------------- whole weights

  /** Every weight is a positive whole number. */
  ghost predicate WholeWeights(rules: Rules) {
    forall k :: k in rules.indicatorWeights ==>
      rules.indicatorWeights[k] >= 1.0 && rules.indicatorWeights[k] == rules.indicatorWeights[k].Floor as real
  }

  function Copies(rules: Rules, indicator: Id): int {
    if indicator in rules.indicatorWeights then rules.indicatorWeights[indicator].Floor else 1
  }

  function Repeated(row: Score, n: int): (copies: seq<Score>)
    ensures |copies| == if n <= 0 then 0 else n
  {
    if n <= 0 then [] else Repeated(row, n - 1) + [row]
  }

  /** Each row as often as its question weighs. */
  function Expanded(rows: seq<Score>, rules: Rules): seq<Score> {
    if rows == [] then []
    else
      var row := rows[|rows| - 1];
      Expanded(rows[..|rows| - 1], rules) + Repeated(row, Copies(rules, row.indicator))
  }

  lemma {:induction false} AppendedSums(
      a: seq<Score>, b: seq<Score>, section: Section, sections: map<Id, Section>, rules: Rules)
    requires Known(a, sections) && Known(b, sections)
    ensures Known(a + b, sections)
    ensures SectionSum(a + b, section, sections, rules)
      == SectionSum(a, section, sections, rules) + SectionSum(b, section, sections, rules)
    ensures SectionMax(a + b, section, sections, rules)
      == SectionMax(a, section, sections, rules) + SectionMax(b, section, sections, rules)
  {
    if b == [] {
      assert a + b == a;
    } else {
      var n := |b| - 1;
      AppendedSums(a, b[..n], section, sections, rules);
      assert (a + b)[..|a + b| - 1] == a + b[..n] && (a + b)[|a + b| - 1] == b[n];
    }
  }

  lemma OneMoreTime(x: real, n: int)
    ensures Times(x, n as real) == Times(x, (n - 1) as real) + x
  {
  }

  /** What `n` answers with these points bring to a section. */
  function Brought(section: Section, of: Section, points: int, n: int): real {
    if section == of then Times(points as real, n as real) else 0.0
  }

  lemma BroughtOneMore(section: Section, of: Section, points: int, n: int)
    ensures Brought(section, of, points, n) == Brought(section, of, points, n - 1) + Brought(section, of, points, 1)
    ensures Brought(section, of, points, 0) == 0.0
  {
    OneMoreTime(points as real, n);
    OneMoreTime(points as real, 1);
  }

  /** These rows bring to a section what `n` answers like this one do. */
  ghost predicate Brings(
      rows: seq<Score>, row: Score, n: int, section: Section, sections: map<Id, Section>, rules: Rules)
    requires Known(rows, sections) && row.indicator in sections
  {
    && SectionSum(rows, section, sections, rules) == Brought(section, sections[row.indicator], row.score, n)
    && SectionMax(rows, section, sections, rules) == Brought(section, sections[row.indicator], 5, n)
  }

  lemma BringsOneMore(rows: seq<Score>, row: Score, n: int, section: Section, sections: map<Id, Section>, rules: Rules)
    requires row.indicator in sections && rules.indicatorWeights == map[] && Known(rows, sections)
    requires Brings(rows, row, n - 1, section, sections, rules)
    ensures Known(rows + [row], sections) && Brings(rows + [row], row, n, section, sections, rules)
  {
    BroughtOneMore(section, sections[row.indicator], row.score, n);
    BroughtOneMore(section, sections[row.indicator], 5, n);
    SumsOfOneMore(rows, row, section, sections, rules);
    OneIsBrought(row, section, sections, rules);
  }

  lemma {:induction false} RepeatedSums(row: Score, n: nat, section: Section, sections: map<Id, Section>, rules: Rules)
    requires row.indicator in sections && rules.indicatorWeights == map[]
    ensures Known(Repeated(row, n), sections) && Brings(Repeated(row, n), row, n, section, sections, rules)
  {
    if n > 0 {
      RepeatedSums(row, n - 1, section, sections, rules);
      BringsOneMore(Repeated(row, n - 1), row, n, section, sections, rules);
    }
  }

  lemma OneIsBrought(row: Score, section: Section, sections: map<Id, Section>, rules: Rules)
    requires row.indicator in sections && rules.indicatorWeights == map[]
    ensures Points(row, section, sections, rules) == Brought(section, sections[row.indicator], row.score, 1)
    ensures MaxPoints(row, section, sections, rules) == Brought(section, sections[row.indicator], 5, 1)
  {
  }

  lemma WeightIsCopies(row: Score, section: Section, sections: map<Id, Section>, rules: Rules)
    requires row.indicator in sections && WholeWeights(rules)
    ensures var copies := Copies(rules, row.indicator);
      && copies >= 1
      && Points(row, section, sections, rules) == Brought(section, sections[row.indicator], row.score, copies)
      && MaxPoints(row, section, sections, rules) == Brought(section, sections[row.indicator], 5, copies)
  {
  }

  lemma CopiesWeighTheSame(row: Score, section: Section, sections: map<Id, Section>, rules: Rules)
    requires row.indicator in sections && WholeWeights(rules)
    ensures var copies := Repeated(row, Copies(rules, row.indicator));
      && Known(copies, sections)
      && SectionSum(copies, section, sections, Unweighted(rules)) == Points(row, section, sections, rules)
      && SectionMax(copies, section, sections, Unweighted(rules)) == MaxPoints(row, section, sections, rules)
  {
    WeightIsCopies(row, section, sections, rules);
    RepeatedSums(row, Copies(rules, row.indicator), section, sections, Unweighted(rules));
  }

  /** Two sets of rows that come to the same in a section, the one with weights and the other without. */
  ghost predicate ComesToTheSame(
      rows: seq<Score>, plain: seq<Score>, section: Section, sections: map<Id, Section>, rules: Rules)
    requires Known(rows, sections) && Known(plain, sections)
  {
    && SectionSum(rows, section, sections, rules) == SectionSum(plain, section, sections, Unweighted(rules))
    && SectionMax(rows, section, sections, rules) == SectionMax(plain, section, sections, Unweighted(rules))
  }

  lemma OneMoreComesToTheSame(
      rows: seq<Score>, plain: seq<Score>, row: Score, section: Section, sections: map<Id, Section>, rules: Rules)
    requires Known(rows, sections) && Known(plain, sections) && row.indicator in sections && WholeWeights(rules)
    requires ComesToTheSame(rows, plain, section, sections, rules)
    ensures var copies := Repeated(row, Copies(rules, row.indicator));
      && Known(rows + [row], sections) && Known(plain + copies, sections)
      && ComesToTheSame(rows + [row], plain + copies, section, sections, rules)
  {
    var copies := Repeated(row, Copies(rules, row.indicator));
    CopiesWeighTheSame(row, section, sections, rules);
    AppendedSums(plain, copies, section, sections, Unweighted(rules));
    SumsOfOneMore(rows, row, section, sections, rules);
  }

  lemma {:induction false} ExpandedSums(rows: seq<Score>, section: Section, sections: map<Id, Section>, rules: Rules)
    requires Known(rows, sections) && WholeWeights(rules)
    ensures Known(Expanded(rows, rules), sections)
    ensures ComesToTheSame(rows, Expanded(rows, rules), section, sections, rules)
  {
    if rows != [] {
      var init, last := rows[..|rows| - 1], rows[|rows| - 1];
      ExpandedSums(init, section, sections, rules);
      OneMoreComesToTheSame(init, Expanded(init, rules), last, section, sections, rules);
      assert rows == init + [last];
    }
  }

  /** Under whole weights the result is that of the rows, each repeated as often as its question weighs,
      without any weights. */
  lemma WeightsCountAsQuestions(rows: seq<Score>, sections: map<Id, Section>, rules: Rules, bonus: real)
    requires Known(rows, sections) && WholeWeights(rules) && rules.thresholds != []
    ensures var expanded := Expanded(rows, rules);
      && Known(expanded, sections)
      && Compute(rows, sections, rules, bonus) == Compute(expanded, sections, Unweighted(rules), bonus)
  {
    ExpandedSums(rows, General, sections, rules);
    ExpandedSums(rows, Specialized, sections, rules);
  }

  /** Close to the points given over the points attainable, in percent; 0 for an unanswered section. */
  ghost predicate NearShare(pct: real, points: int, answers: nat) {
    if answers == 0 then pct == 0.0 else -0.05 <= pct - points as real / (5 * answers) as real * 100.0 <= 0.05
  }

  /** And without weights, each section's percentage is the share of the points given. */
  lemma UnweightedResult(rows: seq<Score>, sections: map<Id, Section>, rules: Rules, bonus: real)
    requires Known(rows, sections) && rules.indicatorWeights == map[] && rules.thresholds != []
    ensures var r := Compute(rows, sections, rules, bonus);
      && NearShare(r.generalPct, GivenPoints(rows, General, sections), Answers(rows, General, sections))
      && NearShare(r.specializedPct, GivenPoints(rows, Specialized, sections), Answers(rows, Specialized, sections))
  {
    PlainSums(rows, General, sections, rules);
    PlainSums(rows, Specialized, sections, rules);
    ResultIsTheWeightedMean(rows, sections, rules, bonus);
  }

  /** Any weight: one more answer adds its score, and its maximum of 5, times what the map says of its
      question. */
  lemma OneMoreAnswer(rows: seq<Score>, row: Score, section: Section, sections: map<Id, Section>, rules: Rules)
    requires Known(rows, sections) && row.indicator in sections && sections[row.indicator] == section
    ensures var weight :=
        if row.indicator in rules.indicatorWeights then rules.indicatorWeights[row.indicator] else 1.0;
      && Known(rows + [row], sections)
      && SectionSum(rows + [row], section, sections, rules)
        == SectionSum(rows, section, sections, rules) + row.score as real * weight
      && SectionMax(rows + [row], section, sections, rules) == SectionMax(rows, section, sections, rules) + 5.0 * weight
  {
    SumsOfOneMore(rows, row, section, sections, rules);
  }

  // ---------------------------------------------------------------- one result

  const TWO_ROWS: seq<Score> := [Score(0, 5, None), Score(1, 1, None)]

  const GENERAL_ONLY: map<Id, Section> := map[0 := General, 1 := General]

  function DoubleFirst(): Rules {
    SchemeOf(0.6, 0.4).(indicatorWeights := map[0 := 2.0])
  }

  lemma SumsOfTwo(rules: Rules)
    requires rules == DoubleFirst()
    ensures Known(TWO_ROWS, GENERAL_ONLY)
    ensures SectionSum(TWO_ROWS, General, GENERAL_ONLY, rules) == 11.0
    ensures SectionMax(TWO_ROWS, General, GENERAL_ONLY, rules) == 15.0
  {
    var first := [TWO_ROWS[0]];
    OneMoreAnswer([], TWO_ROWS[0], General, GENERAL_ONLY, rules);
    assert [] + [TWO_ROWS[0]] == first;
    OneMoreAnswer(first, TWO_ROWS[1], General, GENERAL_ONLY, rules);
    assert first + [TWO_ROWS[1]] == TWO_ROWS;
  }

  /** Full marks on a question of weight 2 and the lowest on one without a weight: (5 * 2 + 1) / 15. */
  lemma DoubleWeightCountsTwice()
    ensures Known(TWO_ROWS, GENERAL_ONLY) && Compute(TWO_ROWS, GENERAL_ONLY, DoubleFirst(), 0.0).generalPct == 73.3
  {
    SumsOfTwo(DoubleFirst());
    assert 733.0 < Percent(11.0, 15.0) * 10.0 < 733.5;
    assert HalfEven(Percent(11.0, 15.0) * 10.0) == 733;
  }
}
