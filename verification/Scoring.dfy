/**
 * From question scores to the verdict of a duel: `src/albedo_eval_service/judge_core.py` and its use in `judge_api.py`.
 */
module Scoring {
  import opened Results
  import opened Texts

  const CHALLENGER_WIN_MARGIN := 0.025
  const AMPUTATED_THINKING_MULTIPLIER := 0.5

  // ---------------------------------------------------------------- rounding

  /** `round(x, 6)`: to the nearest millionth, a tie to the even one. */
  function RoundedUnits(y: real): int {
    var low := y.Floor;
    var rest := y - low as real;
    if rest < 0.5 then low else if rest > 0.5 then low + 1 else if low % 2 == 0 then low else low + 1
  }

  function Round6(x: real): real { RoundedUnits(x * 1000000.0) as real / 1000000.0 }

  /** No whole number is nearer, and of two that are as near the even one is taken. */
  lemma RoundIsNearest(y: real)
    ensures -0.5 <= y - RoundedUnits(y) as real <= 0.5
    ensures y - y.Floor as real == 0.5 ==> RoundedUnits(y) % 2 == 0
  {
  }

  lemma UnitsAreMonotone(x: real, y: real)
    requires x <= y
    ensures RoundedUnits(x) <= RoundedUnits(y)
  {
    assert x.Floor <= y.Floor;
  }

  lemma RoundIsMonotone(x: real, y: real)
    requires x <= y
    ensures Round6(x) <= Round6(y)
  {
    UnitsAreMonotone(x * 1000000.0, y * 1000000.0);
  }

  lemma RoundStaysInUnit(x: real)
    requires 0.0 <= x <= 1.0
    ensures 0.0 <= Round6(x) <= 1.0
  {
    RoundIsMonotone(0.0, x);
    RoundIsMonotone(x, 1.0);
    assert RoundedUnits(0.0) == 0 && RoundedUnits(1000000.0) == 1000000;
  }

  // ---------------------------------------------------------------- means

  function Sum(values: seq<real>): real {
    if values == [] then 0.0 else Sum(values[..|values| - 1]) + values[|values| - 1]
  }

  /** The mean of some values, rounded; none of none. */
  function Mean(values: seq<real>): Option<real> {
    if values == [] then None else Some(Round6(Sum(values) / |values| as real))
  }

  /** Scores of questions or of judges, some of them missing. */
  type Scores = seq<Option<real>>

  function Present(scores: Scores): (values: seq<real>)
    ensures |values| <= |scores|
  {
    if scores == [] then []
    else Present(scores[..|scores| - 1]) + if scores[|scores| - 1].Some? then [scores[|scores| - 1].value] else []
  }

  /** The same scores are missing, and none of the others is lower in `b`. */
  predicate NoLower(a: Scores, b: Scores) {
    |a| == |b| && forall i :: 0 <= i < |a| ==> RaisedTo(a[i], b[i])
  }

  predicate RaisedTo(x: Option<real>, y: Option<real>) {
    (x.Some? <==> y.Some?) && (x.Some? ==> x.value <= y.value)
  }

  predicate InUnit(scores: Scores) {
    forall i :: 0 <= i < |scores| ==> IsUnit(scores[i])
  }

  predicate IsUnit(x: Option<real>) { x.Some? ==> 0.0 <= x.value <= 1.0 }

  lemma {:induction false} SumOfPresent(a: Scores, b: Scores)
    requires NoLower(a, b)
    ensures |Present(a)| == |Present(b)| && Sum(Present(a)) <= Sum(Present(b))
  {
    if a != [] {
      SumOfPresent(a[..|a| - 1], b[..|b| - 1]);
      SumOneMore(Present(a[..|a| - 1]), a[|a| - 1]);
      SumOneMore(Present(b[..|b| - 1]), b[|b| - 1]);
    }
  }

  lemma SumOneMore(values: seq<real>, x: Option<real>)
    ensures Sum(values + if x.Some? then [x.value] else []) == Sum(values) + if x.Some? then x.value else 0.0
  {
    if x.Some? {
      assert (values + [x.value])[..|values|] == values;
    } else {
      assert values + [] == values;
    }
  }

  lemma {:induction false} SumInUnit(scores: Scores)
    requires InUnit(scores)
    ensures 0.0 <= Sum(Present(scores)) <= |Present(scores)| as real
  {
    if scores != [] {
      SumInUnit(scores[..|scores| - 1]);
      SumOneMore(Present(scores[..|scores| - 1]), scores[|scores| - 1]);
    }
  }

  lemma DivideMonotone(x: real, y: real, d: real)
    requires x <= y && d > 0.0
    ensures x / d <= y / d
  {
    assert (y - x) / d >= 0.0;
    assert y / d == x / d + (y - x) / d;
  }

  lemma DivideInUnit(x: real, d: real)
    requires 0.0 <= x <= d && d > 0.0
    ensures 0.0 <= x / d <= 1.0
  {
    DivideMonotone(x, d, d);
    assert d / d == 1.0;
  }

  lemma MeanRaises(a: Scores, b: Scores)
    requires NoLower(a, b)
    ensures RaisedTo(Mean(Present(a)), Mean(Present(b)))
  {
    SumOfPresent(a, b);
    if Present(a) != [] {
      var n := |Present(a)| as real;
      DivideMonotone(Sum(Present(a)), Sum(Present(b)), n);
      RoundIsMonotone(Sum(Present(a)) / n, Sum(Present(b)) / n);
    }
  }

  lemma MeanInUnit(scores: Scores)
    requires InUnit(scores)
    ensures IsUnit(Mean(Present(scores)))
  {
    SumInUnit(scores);
    if Present(scores) != [] {
      DivideInUnit(Sum(Present(scores)), |Present(scores)| as real);
      RoundStaysInUnit(Sum(Present(scores)) / |Present(scores)| as real);
    }
  }

  // ---------------------------------------------------------------- one judge's rate

  datatype Question = Question(id: string, tag: string)

  /** What a question is worth, from its tag. */
  function QuestionWeight(q: Question, milestones: set<string>): (w: real)
    ensures w >= 0.0
  {
    if q.tag in milestones then 1.0 else if StartsWith(q.tag, "reference:") then 0.5 else 0.0
  }

  /** The weight of the last question with this id, nothing for another id. */
  function WeightOf(id: string, questions: seq<Question>, milestones: set<string>): (w: real)
    ensures w >= 0.0
  {
    if questions == [] then 0.0
    else
      var last := questions[|questions| - 1];
      if last.id == id then QuestionWeight(last, milestones) else WeightOf(id, questions[..|questions| - 1], milestones)
  }

  /** The weights of the questions the scores are for. */
  function Weights(ids: seq<string>, questions: seq<Question>, milestones: set<string>): (w: seq<real>)
    ensures |w| == |ids| && forall i :: 0 <= i < |w| ==> w[i] >= 0.0
  {
    seq(|ids|, i requires 0 <= i < |ids| => WeightOf(ids[i], questions, milestones))
  }

  function Times(w: real, x: real): real { w * x }

  function Contribution(w: real, x: Option<real>): real { if x.Some? then Times(w, x.value) else 0.0 }

  function Weighted(weights: seq<real>, scores: Scores): real
    requires |weights| == |scores|
  {
    if scores == [] then 0.0
    else
      var n := |scores| - 1;
      Weighted(weights[..n], scores[..n]) + Contribution(weights[n], scores[n])
  }

  function TotalWeight(weights: seq<real>, scores: Scores): real
    requires |weights| == |scores|
  {
    if scores == [] then 0.0
    else
      var n := |scores| - 1;
      TotalWeight(weights[..n], scores[..n]) + if scores[n].Some? then weights[n] else 0.0
  }

  /** `judge_yes_rate`: the weighted mean, or the plain one when nothing that was answered has weight. */
  function YesRate(scores: Scores, weights: seq<real>): Option<real>
    requires |weights| == |scores|
  {
    var den := TotalWeight(weights, scores);
    if den != 0.0 then Some(Round6(Weighted(weights, scores) / den)) else Mean(Present(scores))
  }

  predicate AreWeights(weights: seq<real>) {
    forall i :: 0 <= i < |weights| ==> weights[i] >= 0.0
  }

  lemma {:induction false} WeightedRaises(weights: seq<real>, a: Scores, b: Scores)
    requires |weights| == |a| && AreWeights(weights) && NoLower(a, b)
    ensures Weighted(weights, a) <= Weighted(weights, b) && TotalWeight(weights, a) == TotalWeight(weights, b)
  {
    if a != [] {
      var n := |a| - 1;
      WeightedRaises(weights[..n], a[..n], b[..n]);
      ContributionRaises(weights[n], a[n], b[n]);
    }
  }

  lemma ContributionRaises(w: real, x: Option<real>, y: Option<real>)
    requires w >= 0.0 && RaisedTo(x, y)
    ensures Contribution(w, x) <= Contribution(w, y)
  {
    if x.Some? { ProductRaises(w, x.value, y.value); }
  }

  lemma ContributionInUnit(w: real, x: Option<real>)
    requires w >= 0.0 && IsUnit(x)
    ensures 0.0 <= Contribution(w, x) <= if x.Some? then w else 0.0
  {
    if x.Some? { ProductInUnit(w, x.value); }
  }

  lemma ProductInUnit(w: real, x: real)
    requires w >= 0.0 && 0.0 <= x <= 1.0
    ensures 0.0 <= Times(w, x) <= w
  {
    assert w * (1.0 - x) >= 0.0;
    assert w * (1.0 - x) == w - w * x;
  }

  lemma ProductRaises(w: real, x: real, y: real)
    requires w >= 0.0 && x <= y
    ensures Times(w, x) <= Times(w, y)
  {
    assert w * (y - x) >= 0.0;
  }

  lemma {:induction false} WeightedInUnit(weights: seq<real>, scores: Scores)
    requires |weights| == |scores| && AreWeights(weights) && InUnit(scores)
    ensures 0.0 <= Weighted(weights, scores) <= TotalWeight(weights, scores)
  {
    if scores != [] {
      var n := |scores| - 1;
      WeightedInUnit(weights[..n], scores[..n]);
      ContributionInUnit(weights[n], scores[n]);
    }
  }

  /** A judge's rate of scores in [0, 1] is in [0, 1], and does not fall when a score rises. */
  lemma RateIsRight(weights: seq<real>, a: Scores, b: Scores)
    requires |weights| == |a| && AreWeights(weights) && NoLower(a, b)
    ensures RaisedTo(YesRate(a, weights), YesRate(b, weights))
    ensures InUnit(a) ==> IsUnit(YesRate(a, weights))
  {
    WeightedRaises(weights, a, b);
    var den := TotalWeight(weights, a);
    NonNegativeTotal(weights, a);
    if den != 0.0 {
      var x, y := Weighted(weights, a), Weighted(weights, b);
      assert YesRate(a, weights) == Some(Round6(x / den)) && YesRate(b, weights) == Some(Round6(y / den));
      RoundedQuotients(x, y, den);
      if InUnit(a) { WeightedInUnit(weights, a); }
    } else {
      MeanRaises(a, b);
      if InUnit(a) { MeanInUnit(a); }
    }
  }

  /** And so with the weights the tags of the questions give, whatever the categories. */
  lemma TaggedRateIsRight(
    ids: seq<string>, questions: seq<Question>, milestones: set<string>, a: Scores, b: Scores)
    requires |ids| == |a| && NoLower(a, b)
    ensures var weights := Weights(ids, questions, milestones);
            && AreWeights(weights) && RaisedTo(YesRate(a, weights), YesRate(b, weights))
            && (InUnit(a) ==> IsUnit(YesRate(a, weights)))
  {
    RateIsRight(Weights(ids, questions, milestones), a, b);
  }

  lemma RoundedQuotients(x: real, y: real, d: real)
    requires x <= y && d > 0.0
    ensures Round6(x / d) <= Round6(y / d)
    ensures 0.0 <= x <= d ==> 0.0 <= Round6(x / d) <= 1.0
  {
    DivideMonotone(x, y, d);
    RoundIsMonotone(x / d, y / d);
    if 0.0 <= x <= d {
      DivideInUnit(x, d);
      RoundStaysInUnit(x / d);
    }
  }

  lemma {:induction false} NonNegativeTotal(weights: seq<real>, scores: Scores)
    requires |weights| == |scores| && AreWeights(weights)
    ensures TotalWeight(weights, scores) >= 0.0
  {
    if scores != [] { NonNegativeTotal(weights[..|scores| - 1], scores[..|scores| - 1]); }
  }

  // ---------------------------------------------------------------- one side of a sample

  /** One judge's judgings of the questions, each a score or nothing for every question. */
  type Repeats = seq<Scores>

  predicate IsJudge(r: Repeats, questions: nat) {
    forall k :: 0 <= k < |r| ==> |r[k]| == questions
  }

  predicate AreJudges(judges: seq<Repeats>, questions: nat) {
    forall j :: 0 <= j < |judges| ==> IsJudge(judges[j], questions)
  }

  function Column(r: Repeats, questions: nat, q: nat): (c: Scores)
    requires IsJudge(r, questions) && q < questions
    ensures |c| == |r|
  {
    seq(|r|, k requires 0 <= k < |r| => r[k][q])
  }

  /** `mean_scores`: the mean of a judge's judgings, question by question. */
  function MeanScores(r: Repeats, questions: nat): (s: Scores)
    requires IsJudge(r, questions)
    ensures |s| == questions
  {
    seq(questions, q requires 0 <= q < questions => Mean(Present(Column(r, questions, q))))
  }

  method MeanOfRepeats(r: Repeats, questions: nat) returns (out: Scores)
    requires IsJudge(r, questions)
    ensures out == MeanScores(r, questions)
  {
    out := [];
    for q := 0 to questions
      invariant |out| == q && forall k :: 0 <= k < q ==> out[k] == Mean(Present(Column(r, questions, k)))
    {
      var values := Present(Column(r, questions, q));
      out := out + [Mean(values)];
    }
  }

  /** `response_score`: the mean of the judges' rates. */
  function ResponseScore(judges: seq<Repeats>, weights: seq<real>): Option<real>
    requires AreJudges(judges, |weights|)
  {
    Mean(Present(Rates(judges, weights)))
  }

  function Rates(judges: seq<Repeats>, weights: seq<real>): (rates: Scores)
    requires AreJudges(judges, |weights|)
    ensures |rates| == |judges|
  {
    seq(|judges|, j requires 0 <= j < |judges| => YesRate(MeanScores(judges[j], |weights|), weights))
  }

  /** A side's score, halved when its thinking was cut off. */
  function SideScore(judges: seq<Repeats>, weights: seq<real>, amputated: bool): Option<real>
    requires AreJudges(judges, |weights|)
  {
    Halved(ResponseScore(judges, weights), amputated)
  }

  function Halved(score: Option<real>, amputated: bool): Option<real> {
    if amputated && score.Some? then Some(Round6(score.value * AMPUTATED_THINKING_MULTIPLIER)) else score
  }

  /** The same answers are missing, and no score of any judging is lower in `b`. */
  predicate NoneLower(a: seq<Repeats>, b: seq<Repeats>) {
    |a| == |b| && forall j :: 0 <= j < |a| ==> NoJudgingLower(a[j], b[j])
  }

  predicate NoJudgingLower(a: Repeats, b: Repeats) {
    |a| == |b| && forall k :: 0 <= k < |a| ==> NoLower(a[k], b[k])
  }

  predicate JudgesInUnit(judges: seq<Repeats>) {
    forall j :: 0 <= j < |judges| ==> JudgeInUnit(judges[j])
  }

  predicate JudgeInUnit(r: Repeats) {
    forall k :: 0 <= k < |r| ==> InUnit(r[k])
  }

  lemma MeansRaise(a: Repeats, b: Repeats, questions: nat)
    requires IsJudge(a, questions) && IsJudge(b, questions) && NoJudgingLower(a, b)
    ensures NoLower(MeanScores(a, questions), MeanScores(b, questions))
  {
    forall q | 0 <= q < questions ensures RaisedTo(MeanScores(a, questions)[q], MeanScores(b, questions)[q]) {
      forall k | 0 <= k < |a| ensures RaisedTo(a[k][q], b[k][q]) {
        assert NoLower(a[k], b[k]);
      }
      MeanRaises(Column(a, questions, q), Column(b, questions, q));
    }
  }

  lemma MeansInUnit(a: Repeats, questions: nat)
    requires IsJudge(a, questions) && JudgeInUnit(a)
    ensures InUnit(MeanScores(a, questions))
  {
    forall q | 0 <= q < questions ensures IsUnit(MeanScores(a, questions)[q]) {
      forall k | 0 <= k < |a| ensures IsUnit(a[k][q]) {
        assert InUnit(a[k]);
      }
      MeanInUnit(Column(a, questions, q));
    }
  }

  lemma {:induction false} SameScores(a: Scores)
    ensures NoLower(a, a)
  {
  }

  lemma RateRaises(a: Repeats, b: Repeats, weights: seq<real>)
    requires AreWeights(weights) && IsJudge(a, |weights|) && IsJudge(b, |weights|) && NoJudgingLower(a, b)
    ensures RaisedTo(YesRate(MeanScores(a, |weights|), weights), YesRate(MeanScores(b, |weights|), weights))
  {
    MeansRaise(a, b, |weights|);
    RateIsRight(weights, MeanScores(a, |weights|), MeanScores(b, |weights|));
  }

  lemma RateInUnit(a: Repeats, weights: seq<real>)
    requires AreWeights(weights) && IsJudge(a, |weights|) && JudgeInUnit(a)
    ensures IsUnit(YesRate(MeanScores(a, |weights|), weights))
  {
    MeansInUnit(a, |weights|);
    SameScores(MeanScores(a, |weights|));
    RateIsRight(weights, MeanScores(a, |weights|), MeanScores(a, |weights|));
  }

  lemma ResponseRaises(a: seq<Repeats>, b: seq<Repeats>, weights: seq<real>)
    requires AreWeights(weights) && NoneLower(a, b) && AreJudges(a, |weights|) && AreJudges(b, |weights|)
    ensures RaisedTo(ResponseScore(a, weights), ResponseScore(b, weights))
  {
    forall j | 0 <= j < |a| ensures RaisedTo(Rates(a, weights)[j], Rates(b, weights)[j]) {
      RateRaises(a[j], b[j], weights);
    }
    MeanRaises(Rates(a, weights), Rates(b, weights));
  }

  /** Raising scores never lowers a side's score. */
  lemma SideRaises(a: seq<Repeats>, b: seq<Repeats>, weights: seq<real>, amputated: bool)
    requires AreWeights(weights) && NoneLower(a, b) && AreJudges(a, |weights|) && AreJudges(b, |weights|)
    ensures RaisedTo(SideScore(a, weights, amputated), SideScore(b, weights, amputated))
  {
    ResponseRaises(a, b, weights);
    HalfRaises(ResponseScore(a, weights), ResponseScore(b, weights), amputated);
  }

  lemma HalfRaises(x: Option<real>, y: Option<real>, amputated: bool)
    requires RaisedTo(x, y)
    ensures RaisedTo(Halved(x, amputated), Halved(y, amputated))
  {
    if x.Some? { RoundIsMonotone(x.value * AMPUTATED_THINKING_MULTIPLIER, y.value * AMPUTATED_THINKING_MULTIPLIER); }
  }

  /** Scores in [0, 1] give a side's score in [0, 1]. */
  lemma SideInUnit(a: seq<Repeats>, weights: seq<real>, amputated: bool)
    requires AreWeights(weights) && AreJudges(a, |weights|) && JudgesInUnit(a)
    ensures IsUnit(SideScore(a, weights, amputated))
  {
    forall j | 0 <= j < |a| ensures IsUnit(Rates(a, weights)[j]) {
      RateInUnit(a[j], weights);
    }
    MeanInUnit(Rates(a, weights));
    var x := ResponseScore(a, weights);
    if x.Some? { RoundStaysInUnit(x.value * AMPUTATED_THINKING_MULTIPLIER); }
  }

  // ---------------------------------------------------------------- the duel

  /** One sample: both sides' judgings, whether all were parsed, and whether either side's thinking was cut off. */
  datatype Sample = Sample(
    weights: seq<real>, challenger: seq<Repeats>, king: seq<Repeats>, parsed: bool, challengerAmputated: bool,
    kingAmputated: bool)

  predicate IsSample(s: Sample) {
    && AreWeights(s.weights)
    && AreJudges(s.challenger, |s.weights|) && AreJudges(s.king, |s.weights|)
  }

  function ChallengerScore(s: Sample): Option<real>
    requires IsSample(s)
  {
    SideScore(s.challenger, s.weights, s.challengerAmputated)
  }

  function KingScore(s: Sample): Option<real>
    requires IsSample(s)
  {
    SideScore(s.king, s.weights, s.kingAmputated)
  }

  predicate IsScored(s: Sample)
    requires IsSample(s)
  {
    s.parsed && ChallengerScore(s).Some? && KingScore(s).Some?
  }

  predicate AreSamples(samples: seq<Sample>) {
    forall i :: 0 <= i < |samples| ==> IsSample(samples[i])
  }

  /** The scores of the valid samples; missing for the others. */
  function Challengers(samples: seq<Sample>): (s: Scores)
    requires AreSamples(samples)
    ensures |s| == |samples|
  {
    seq(|samples|, i requires 0 <= i < |samples| => if IsScored(samples[i]) then ChallengerScore(samples[i]) else None)
  }

  function Kings(samples: seq<Sample>): (s: Scores)
    requires AreSamples(samples)
    ensures |s| == |samples|
  {
    seq(|samples|, i requires 0 <= i < |samples| => if IsScored(samples[i]) then KingScore(samples[i]) else None)
  }

  /** `MeanOfNothing` is the error of a mean over no valid sample, which only a threshold of zero lets through. */
  datatype Verdict = NotEnoughValid(
    valid: nat, total: nat) | MeanOfNothing | Scored(challenger: real, king: real, won: bool)

  predicate BeatsKing(challenger: real, king: real) { challenger - king >= CHALLENGER_WIN_MARGIN }

  lemma ValidOnBothSides(samples: seq<Sample>)
    requires AreSamples(samples)
    ensures |Present(Challengers(samples))| == |Present(Kings(samples))|
  {
    SamePresence(Challengers(samples), Kings(samples));
  }

  lemma {:induction false} SamePresence(a: Scores, b: Scores)
    requires |a| == |b| && forall i :: 0 <= i < |a| ==> (a[i].Some? <==> b[i].Some?)
    ensures |Present(a)| == |Present(b)|
  {
    if a != [] { SamePresence(a[..|a| - 1], b[..|b| - 1]); }
  }

  /** `aggregate_scores`; `total` is the number of samples asked for, or 0 for as many as there are. */
  function Aggregate(samples: seq<Sample>, minValid: real, total: nat): Verdict
    requires AreSamples(samples)
  {
    ValidOnBothSides(samples);
    var all := if total == 0 then |samples| else total;
    var valid := |Present(Challengers(samples))|;
    if all == 0 || valid as real / all as real < minValid then NotEnoughValid(valid, all)
    else if valid == 0 then MeanOfNothing
    else
      var challenger, king := Mean(Present(Challengers(samples))).value, Mean(Present(Kings(samples))).value;
      Scored(challenger, king, BeatsKing(challenger, king))
  }

  /** The same duel with challenger scores raised. */
  predicate IsRaised(a: seq<Sample>, b: seq<Sample>) {
    && AreSamples(a) && AreSamples(b) && |a| == |b|
    && forall i :: 0 <= i < |a| ==>
         NoneLower(a[i].challenger, b[i].challenger) && b[i] == a[i].(challenger := b[i].challenger)
  }

  /**
   * Raising any of the challenger's scores never lowers its aggregate, leaves the king's, and never turns a win into a
   * loss.
   */
  lemma WinIsNeverLost(a: seq<Sample>, b: seq<Sample>, minValid: real, total: nat)
    requires IsRaised(a, b)
    ensures Aggregate(a, minValid, total).Scored? <==> Aggregate(b, minValid, total).Scored?
    ensures Aggregate(a, minValid, total).Scored? ==>
              var x, y := Aggregate(a, minValid, total), Aggregate(b, minValid, total);
              x.challenger <= y.challenger && x.king == y.king && (x.won ==> y.won)
  {
    forall i | 0 <= i < |a|
      ensures RaisedTo(Challengers(a)[i], Challengers(b)[i]) && Kings(a)[i] == Kings(b)[i]
    {
      assert IsSample(a[i]) && IsSample(b[i]);
      SideRaises(a[i].challenger, b[i].challenger, a[i].weights, a[i].challengerAmputated);
    }
    assert Kings(a) == Kings(b);
    SumOfPresent(Challengers(a), Challengers(b));
    MeanRaises(Challengers(a), Challengers(b));
  }

  /** Scores in [0, 1] aggregate to scores in [0, 1]. */
  lemma AggregateInUnit(samples: seq<Sample>, minValid: real, total: nat)
    requires AreSamples(samples)
    requires forall i :: 0 <= i < |samples| ==> JudgesInUnit(samples[i].challenger) && JudgesInUnit(samples[i].king)
    ensures var v := Aggregate(samples, minValid, total);
            v.Scored? ==> 0.0 <= v.challenger <= 1.0 && 0.0 <= v.king <= 1.0
  {
    forall i | 0 <= i < |samples| ensures IsUnit(Challengers(samples)[i]) && IsUnit(Kings(samples)[i]) {
      var s := samples[i];
      SideInUnit(s.challenger, s.weights, s.challengerAmputated);
      SideInUnit(s.king, s.weights, s.kingAmputated);
    }
    ValidOnBothSides(samples);
    MeanInUnit(Challengers(samples));
    MeanInUnit(Kings(samples));
  }
}
