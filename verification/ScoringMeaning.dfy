/** What the scores of a duel are: sums over indices, rounding as a relation, and the constants written out. */
module ScoringMeaning {
  import opened Results
  import opened Scoring

  /** The sum of the first `n` values. */
  function Total(value: nat -> real, n: nat): real {
    if n == 0 then 0.0 else Total(value, n - 1) + value(n - 1)
  }

  lemma {:induction false} SameTotal(f: nat -> real, g: nat -> real, n: nat)
    requires forall i: nat :: i < n ==> f(i) == g(i)
    ensures Total(f, n) == Total(g, n)
  {
    if n > 0 { SameTotal(f, g, n - 1); }
  }

  /** `r` is `x` to six places: a whole number of millionths, none nearer, and the even one of two. */
  ghost predicate IsRounded(x: real, r: real) {
    exists k: int :: IsNearest(x, k, r)
  }

  predicate IsNearest(x: real, k: int, r: real) {
    var y := 1000000.0 * x;
    && 1000000.0 * r == k as real
    && y - 1.0 / 2.0 <= k as real <= y + 1.0 / 2.0
    && (y - k as real == 1.0 / 2.0 || k as real - y == 1.0 / 2.0 ==> k % 2 == 0)
  }

  lemma RoundIs(x: real)
    ensures IsRounded(x, Round6(x))
  {
    var k := RoundedUnits(x * 1000000.0);
    assert IsNearest(x, k, Round6(x));
  }

  // ---------------------------------------------------------------- means

  function Answered(scores: Scores): set<nat> { set i: nat | i < |scores| && scores[i].Some? }

  function ScoreAt(scores: Scores): nat -> real { (i: nat) => Score(scores, i) }

  function Score(scores: Scores, i: nat): real {
    if i < |scores| && scores[i].Some? then scores[i].value else 0.0
  }

  /** The mean of the scores that are not missing, to six places; missing if all are. */
  ghost predicate IsMean(scores: Scores, r: Option<real>) {
    if Answered(scores) == {} then r.None?
    else r.Some? && IsRounded(Total(ScoreAt(scores), |scores|) / |Answered(scores)| as real, r.value)
  }

  lemma {:induction false} PresentAre(scores: Scores)
    ensures |Present(scores)| == |Answered(scores)|
  {
    if scores != [] {
      PresentAre(scores[..|scores| - 1]);
      AnsweredOneMore(scores);
    }
  }

  lemma AnsweredOneMore(scores: Scores)
    requires scores != []
    ensures var n := |scores| - 1;
            Answered(scores) == Answered(scores[..n]) + if scores[n].Some? then {n} else {}
  {
  }

  lemma {:induction false} SumIs(scores: Scores)
    ensures Sum(Present(scores)) == Total(ScoreAt(scores), |scores|)
  {
    if scores != [] {
      var n := |scores| - 1;
      SumIs(scores[..n]);
      SumOneMore(Present(scores[..n]), scores[n]);
      SameTotal(ScoreAt(scores), ScoreAt(scores[..n]), n);
    }
  }

  lemma MeanIs(scores: Scores)
    ensures IsMean(scores, Mean(Present(scores)))
  {
    PresentAre(scores);
    SumIs(scores);
    if Present(scores) != [] { RoundIs(Sum(Present(scores)) / |Present(scores)| as real); }
  }

  // ---------------------------------------------------------------- a judge's rate

  /** The weights of the answered questions, and their weighted scores. */
  function WeightAt(weights: seq<real>, scores: Scores): nat -> real { (i: nat) => Weight(weights, scores, i) }

  function ProductAt(weights: seq<real>, scores: Scores): nat -> real { (i: nat) => Product(weights, scores, i) }

  function Weight(weights: seq<real>, scores: Scores, i: nat): real {
    if i < |scores| && i < |weights| && scores[i].Some? then weights[i] else 0.0
  }

  function Product(weights: seq<real>, scores: Scores, i: nat): real {
    if i < |scores| && i < |weights| && scores[i].Some? then weights[i] * scores[i].value else 0.0
  }

  lemma {:induction false} WeightedAre(weights: seq<real>, scores: Scores)
    requires |weights| == |scores|
    ensures Weighted(weights, scores) == Total(ProductAt(weights, scores), |scores|)
    ensures TotalWeight(weights, scores) == Total(WeightAt(weights, scores), |scores|)
  {
    if scores != [] {
      var n := |scores| - 1;
      WeightedAre(weights[..n], scores[..n]);
      SameTotal(ProductAt(weights, scores), ProductAt(weights[..n], scores[..n]), n);
      SameTotal(WeightAt(weights, scores), WeightAt(weights[..n], scores[..n]), n);
      assert forall i: nat :: i < n ==> Product(weights, scores, i) == Product(weights[..n], scores[..n], i);
      assert Product(weights, scores, n) == Contribution(weights[n], scores[n]);
    }
  }

  /** The weighted mean of the answered questions, to six places; the plain one when they have no weight. */
  ghost predicate IsRate(scores: Scores, weights: seq<real>, r: Option<real>) {
    var weight := Total(WeightAt(weights, scores), |scores|);
    if weight == 0.0 then IsMean(scores, r)
    else r.Some? && IsRounded(Total(ProductAt(weights, scores), |scores|) / weight, r.value)
  }

  lemma RateIs(scores: Scores, weights: seq<real>)
    requires |weights| == |scores|
    ensures IsRate(scores, weights, YesRate(scores, weights))
  {
    WeightedAre(weights, scores);
    if TotalWeight(weights, scores) == 0.0 { MeanIs(scores); }
    else { RoundIs(Weighted(weights, scores) / TotalWeight(weights, scores)); }
  }

  /** The last question with this id. */
  predicate IsLastWith(questions: seq<Question>, id: string, k: nat) {
    k < |questions| && questions[k].id == id && forall j :: k < j < |questions| ==> questions[j].id != id
  }

  /**
   * A milestone's question weighs one, one of a reference a half, any other nothing; of several questions with an id
   * the last counts.
   */
  lemma {:induction false} WeightIs(id: string, questions: seq<Question>, milestones: set<string>, k: nat)
    ensures IsLastWith(questions, id, k) ==>
              WeightOf(id, questions, milestones)
              == (if questions[k].tag in milestones then 1.0
                  else if "reference:" <= questions[k].tag then 1.0 / 2.0 else 0.0)
    ensures (forall j :: 0 <= j < |questions| ==> questions[j].id != id) ==> WeightOf(id, questions, milestones) == 0.0
    decreases |questions|
  {
    if questions != [] && questions[|questions| - 1].id != id {
      WeightIs(id, questions[..|questions| - 1], milestones, k);
    }
  }

  lemma WeightsAre(ids: seq<string>, questions: seq<Question>, milestones: set<string>, i: nat, k: nat)
    requires i < |ids|
    ensures var w := Weights(ids, questions, milestones);
            && |w| == |ids|
            && (IsLastWith(questions, ids[i], k) && questions[k].tag in milestones ==> w[i] == 1.0)
            && (IsLastWith(questions, ids[i], k) && questions[k].tag !in milestones ==>
                  2.0 * w[i] == if "reference:" <= questions[k].tag then 1.0 else 0.0)
            && ((forall j :: 0 <= j < |questions| ==> questions[j].id != ids[i]) ==> w[i] == 0.0)
  {
    WeightIs(ids[i], questions, milestones, k);
  }

  // ---------------------------------------------------------------- a side

  /** Question `q` over a judge's judgings. */
  function Judged(r: Repeats, q: nat): (c: Scores)
    requires forall k :: 0 <= k < |r| ==> q < |r[k]|
    ensures |c| == |r| && forall k :: 0 <= k < |r| ==> c[k] == r[k][q]
  {
    seq(|r|, k requires 0 <= k < |r| => r[k][q])
  }

  ghost predicate IsJudged(repeats: Repeats, weights: seq<real>, rate: Option<real>)
    requires IsJudge(repeats, |weights|)
  {
    exists scores: Scores :: AreMeans(repeats, scores, |weights|) && IsRate(scores, weights, rate)
  }

  ghost predicate AreMeans(repeats: Repeats, scores: Scores, questions: nat)
    requires IsJudge(repeats, questions)
  {
    |scores| == questions && forall q :: 0 <= q < questions ==> IsMean(Judged(repeats, q), scores[q])
  }

  /**
   * Each judge's questions are averaged over the judgings, then rated, and the rates averaged; half of that if cut off.
   */
  lemma SideIs(judges: seq<Repeats>, weights: seq<real>, amputated: bool) returns (rates: Scores, mean: Option<real>)
    requires AreJudges(judges, |weights|)
    ensures |rates| == |judges| && IsMean(rates, mean)
    ensures forall j :: 0 <= j < |judges| ==> IsJudged(judges[j], weights, rates[j])
    ensures IsHalfIf(mean, amputated, SideScore(judges, weights, amputated))
  {
    rates, mean := Rates(judges, weights), ResponseScore(judges, weights);
    MeanIs(rates);
    forall j | 0 <= j < |judges| ensures IsJudged(judges[j], weights, rates[j]) {
      JudgedIs(judges[j], weights);
    }
    HalfIs(mean, amputated);
  }

  ghost predicate IsHalfIf(mean: Option<real>, amputated: bool, r: Option<real>) {
    if amputated && mean.Some? then r.Some? && IsRounded(mean.value / 2.0, r.value) else r == mean
  }

  lemma HalfIs(mean: Option<real>, amputated: bool)
    ensures IsHalfIf(mean, amputated, Halved(mean, amputated))
  {
    if amputated && mean.Some? {
      RoundIs(mean.value * AMPUTATED_THINKING_MULTIPLIER);
      assert mean.value * 0.5 == mean.value / 2.0;
    }
  }

  lemma JudgedIs(repeats: Repeats, weights: seq<real>)
    requires IsJudge(repeats, |weights|)
    ensures IsJudged(repeats, weights, YesRate(MeanScores(repeats, |weights|), weights))
  {
    MeansAre(repeats, |weights|);
    RateIs(MeanScores(repeats, |weights|), weights);
  }

  lemma MeansAre(repeats: Repeats, questions: nat)
    requires IsJudge(repeats, questions)
    ensures AreMeans(repeats, MeanScores(repeats, questions), questions)
  {
    forall q | 0 <= q < questions ensures IsMean(Judged(repeats, q), MeanScores(repeats, questions)[q]) {
      assert Judged(repeats, q) == Column(repeats, questions, q);
      MeanIs(Column(repeats, questions, q));
    }
  }

  // ---------------------------------------------------------------- the duel

  /** The samples that were parsed and have a score on both sides. */
  function Valid(samples: seq<Sample>): set<nat>
    requires AreSamples(samples)
  {
    set i: nat | i < |samples| && IsValid(samples[i])
  }

  predicate IsValid(s: Sample)
    requires IsSample(s)
  {
    && s.parsed
    && SideScore(s.challenger, s.weights, s.challengerAmputated) != None
    && SideScore(s.king, s.weights, s.kingAmputated) != None
  }

  /** The scores of a side in the valid samples. */
  predicate AreValidScores(samples: seq<Sample>, scores: Scores, challenger: bool)
    requires AreSamples(samples)
  {
    && |scores| == |samples|
    && forall i :: 0 <= i < |samples| ==>
         scores[i] == if !IsValid(samples[i]) then None
                      else if challenger
                      then SideScore(samples[i].challenger, samples[i].weights, samples[i].challengerAmputated)
                      else SideScore(samples[i].king, samples[i].weights, samples[i].kingAmputated)
  }

  /** Of `all` samples `valid` are. */
  predicate AreEnough(valid: nat, all: nat, minValid: real) { all != 0 && valid as real >= minValid * all as real }

  /**
   * A duel is scored when enough of the samples asked for are valid, by the means of the valid samples; the challenger
   * wins if it is ahead by a fortieth or more.
   */
  lemma AggregateIs(samples: seq<Sample>, minValid: real, total: nat) returns (challengers: Scores, kings: Scores)
    requires AreSamples(samples)
    ensures AreValidScores(samples, challengers, true) && AreValidScores(samples, kings, false)
    ensures var v, valid := Aggregate(samples, minValid, total), |Valid(samples)|;
            var all := if total > 0 then total else |samples|;
            if !AreEnough(valid, all, minValid) then v == NotEnoughValid(valid, all)
            else if valid == 0 then v == MeanOfNothing
            else v.Scored? && IsVerdict(challengers, kings, v)
  {
    challengers, kings := Challengers(samples), Kings(samples);
    ValidOnBothSides(samples);
    PresentAre(challengers);
    ValidAre(samples);
    MeanIs(challengers);
    MeanIs(kings);
    EnoughIs(|Valid(samples)|, if total > 0 then total else |samples|, minValid);
  }

  ghost predicate IsVerdict(challengers: Scores, kings: Scores, v: Verdict)
    requires v.Scored?
  {
    && IsMean(challengers, Some(v.challenger)) && IsMean(kings, Some(v.king))
    && (v.won <==> 40.0 * (v.challenger - v.king) >= 1.0)
  }

  lemma EnoughIs(valid: nat, all: nat, minValid: real)
    ensures AreEnough(valid, all, minValid) <==> all != 0 && valid as real / all as real >= minValid
  {
    if all != 0 {
      var x, d := valid as real, all as real;
      assert x == x / d * d;
      if x / d >= minValid { assert (x / d - minValid) * d >= 0.0; }
      else { assert (minValid - x / d) * d > 0.0; }
    }
  }

  lemma ValidAre(samples: seq<Sample>)
    requires AreSamples(samples)
    ensures Answered(Challengers(samples)) == Valid(samples)
    ensures AreValidScores(samples, Challengers(samples), true) && AreValidScores(samples, Kings(samples), false)
  {
  }
}
